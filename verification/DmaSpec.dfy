/** The DMA engine (src/dev_dma.c): four channels that feed the audio FIFO at the pace it
    drains, or pour RAM into the LCD controller. */
module DmaSpec {
  import opened Words
  import Intc
  import I2sSpec
  import LcdSpec

  const CHANNELS: nat := 4
  const CH_BASE: nat := 0x1000
  const STRIDE: nat := 0x20
  const I2S_BASE: nat := 0x7000_2800
  const LCD2_BASE: nat := 0x7000_8a00

  const START: nat := 0x8000_0000
  const INTR: nat := 0x4000_0000
  const READY: nat := 0x0400_0000
  const WAIT_REQ: nat := 0x0100_0000
  const BUSY: nat := 0x8000_0000

  /** A channel's registers and its transfer in progress. */
  datatype Channel = Channel(
    cmd: Word, status: Word, ram: Word, per: Word,
    armed: bool, lcdTransfers: nat, mismatchStart: nat,
    addr: Word, left: nat, active: bool, starts: nat, completions: nat, pushed: nat)

  type Channels = c: seq<Channel> | |c| == CHANNELS
    witness seq(CHANNELS, i => Channel(0, 0, 0, 0, false, 0, 0, 0, 0, false, 0, 0, 0))

  datatype Dma = Dma(ch: Channels, accepts: nat, mismatches: nat, descriptorPixels: nat,
                     blockPixels: nat)

  function PowerOn(): Dma {
    Dma(seq(CHANNELS, i => Channel(0, 0, 0, 0, false, 0, 0, 0, 0, false, 0, 0, 0)), 0, 0, 0, 0)
  }

  /** What the engine reads and writes, and the profile it runs under; `linked` is whether
      the firmware's DMA manager accepts a completion. */
  datatype System = System(dma: Dma, i2s: I2sSpec.I2s, lcd: LcdSpec.Lcd, lines: Intc.Lines,
                           fetch: Fetch, apple: bool, linked: bool)

  function Ch(s: System, i: nat): Channel
    requires i < CHANNELS
  {
    s.dma.ch[i]
  }

  function SetCh(s: System, i: nat, c: Channel): System
    requires i < CHANNELS
  {
    s.(dma := s.dma.(ch := s.dma.ch[i := c]))
  }

  predicate TargetsI2s(c: Channel) {
    I2S_BASE <= c.per <= I2S_BASE + 0xff
  }

  predicate TargetsLcd(c: Channel) {
    LCD2_BASE <= c.per < LCD2_BASE + 0x200
  }

  /** The interrupt line follows the latched completion of any channel. */
  predicate AnyIntr(d: Dma) {
    Bit(d.ch[0].status, INTR) || Bit(d.ch[1].status, INTR) ||
    Bit(d.ch[2].status, INTR) || Bit(d.ch[3].status, INTR)
  }

  function SyncIrq(s: System): System {
    s.(lines := Intc.SetLow(s.lines, Intc.DMA, AnyIntr(s.dma)))
  }

  function TransferBytes(cmd: Word): nat {
    cmd % TWO_TO_16 + 4
  }

  // ------------------------------------------------------------------------------- audio

  /** The channel after one more word. */
  function Counted(c: Channel): Channel {
    c.(pushed := c.pushed + 4, addr := Add32(c.addr, 4), left := if c.left >= 4 then c.left - 4 else 0)
  }

  /** One word into the FIFO. */
  function FeedWord(s: System, i: nat, word: Word): System
    requires i < CHANNELS
  {
    var i2s := I2sSpec.Push(s.i2s, 4, word);
    SetCh(s, i, Counted(Ch(s, i))).(i2s := i2s, lines := I2sSpec.UpdateIrq(s.lines, i2s))
  }

  /** The audio loop of one channel: words move while the FIFO has room for two halfwords. */
  function Feed(s: System, i: nat): System
    requires i < CHANNELS
    decreases Ch(s, i).left
  {
    var c := Ch(s, i);
    if c.left > 0 && I2sSpec.Free(s.i2s) >= 2 then
      match s.fetch(c.addr)
      case None => SetCh(s, i, c.(active := false))
      case Some(word) => Feed(FeedWord(s, i, word), i)
    else if c.left == 0 then Complete(s, i)
    else s
  }

  function Complete(s: System, i: nat): System
    requires i < CHANNELS
  {
    var c := Ch(s, i);
    var done := c.(active := false, completions := c.completions + 1);
    if Bit(c.cmd, INTR) then SyncIrq(SetCh(s, i, done.(status := WithBit(c.status, INTR, true))))
    else SetCh(s, i, done)
  }

  function AudioRun(s: System, i: nat): System
    requires i < CHANNELS
  {
    if !Ch(s, i).active || !TargetsI2s(Ch(s, i)) then s else Feed(s, i)
  }

  function AudioCommand(s: System, i: nat, cmd: Word): System
    requires i < CHANNELS
  {
    var c := Ch(s, i);
    if !TargetsI2s(c) then s
    else if Bit(cmd, START) then
      AudioRun(SetCh(s, i, c.(addr := c.ram, left := TransferBytes(cmd), active := true,
                              starts := c.starts + 1)), i)
    else
      var stopped := SetCh(s, i, c.(active := false));
      if Bit(cmd, INTR) then stopped
      else SyncIrq(SetCh(s, i, c.(active := false, status := WithBit(c.status, INTR, false))))
  }

  // --------------------------------------------------------------------------------- LCD

  /** Words `off`, `off + 4`, ... of a transfer of `bytes` bytes, up to the first that is not
      in RAM, written to one LCD register. */
  function Pour(l: LcdSpec.Lcd, fetch: Fetch, apple: bool, addr: Word, off: nat, bytes: nat,
                port: nat): LcdSpec.Lcd
    decreases if bytes > off then bytes - off else 0
  {
    if off >= bytes then l
    else
      match fetch(Add32(addr, off))
      case None => l
      case Some(word) =>
        Pour(LcdSpec.WriteReg(l, apple, port, word), fetch, apple, addr, off + 4, bytes, port)
  }

  function PourChannel(s: System, i: nat): System
    requires i < CHANNELS && TargetsLcd(Ch(s, i))
  {
    var c := Ch(s, i);
    var dispatched := s.apple && s.linked;
    var ready := WithBit(c.status, READY, true);
    var poured := SetCh(s, i, c.(lcdTransfers := c.lcdTransfers + 1,
                                 cmd := if s.apple then c.cmd else WithBit(c.cmd, WAIT_REQ, false),
                                 status := if dispatched then WithBit(ready, INTR, true) else ready))
                  .(lcd := Pour(s.lcd, s.fetch, s.apple, c.ram, 0, TransferBytes(c.cmd),
                                c.per - LCD2_BASE));
    if dispatched then SyncIrq(poured) else poured
  }

  function Mismatch(s: System, i: nat): System
    requires i < CHANNELS
  {
    var c := Ch(s, i);
    if c.mismatchStart == s.lcd.blockStarts then s
    else
      var t := SetCh(s, i, c.(mismatchStart := s.lcd.blockStarts));
      t.(dma := t.dma.(mismatches := s.dma.mismatches + 1))
  }

  function Accept(s: System, i: nat): System
    requires i < CHANNELS
  {
    var c := Ch(s, i);
    var t := SetCh(s, i, c.(armed := false));
    t.(dma := t.dma.(accepts := s.dma.accepts + 1,
                     descriptorPixels := s.dma.descriptorPixels + TransferBytes(c.cmd) / 2,
                     blockPixels := s.dma.blockPixels + s.lcd.blockRemaining))
  }

  /** On the Apple profile a transfer waits for a block of the same number of pixels. */
  function TryLcd(s: System, i: nat): System
    requires i < CHANNELS
  {
    var c := Ch(s, i);
    if !Bit(c.cmd, WAIT_REQ) || !TargetsLcd(c) then s
    else if !s.apple then PourChannel(s, i)
    else if !c.armed || s.lcd.blockRemaining == 0 then s
    else if s.lcd.blockRemaining != TransferBytes(c.cmd) / 2 then Mismatch(s, i)
    else PourChannel(Accept(s, i), i)
  }

  // ------------------------------------------------------------------ tick and registers

  function TickChannels(s: System, n: nat): System
    requires n <= CHANNELS
  {
    if n == 0 then s else AudioRun(TryLcd(TickChannels(s, n - 1), n - 1), n - 1)
  }

  function Tick(s: System): System {
    TickChannels(s, CHANNELS)
  }

  /** Which channel register a byte offset within a channel stores to. */
  function StoreReg(c: Channel, reg: nat, value: Word): Channel {
    if reg / 4 == 0 then c.(cmd := value)
    else if reg / 4 == 1 then c.(status := value)
    else if reg / 4 == 4 then c.(ram := value)
    else if reg / 4 == 6 then c.(per := value)
    else c
  }

  function WriteChannel(s: System, i: nat, reg: nat, value: Word): System
    requires i < CHANNELS
  {
    var c := Ch(s, i);
    var stored := if reg == 4 && TargetsI2s(c) then s else SetCh(s, i, StoreReg(c, reg, value));
    var commanded :=
      if reg != 0 then stored
      else
        var t := AudioCommand(stored, i, value);
        if s.apple then SetCh(t, i, Ch(t, i).(armed := Bit(value, WAIT_REQ))) else t;
    if s.apple then commanded else TryLcd(commanded, i)
  }

  function WriteReg(s: System, offset: nat, value: Word): System {
    if CH_BASE <= offset < CH_BASE + CHANNELS * STRIDE
    then WriteChannel(s, (offset - CH_BASE) / STRIDE, offset % STRIDE, value) else s
  }

  /** Reading a status register acknowledges the completion, on the Apple profile for every
      channel and otherwise for an audio channel. */
  function ReadStatus(s: System, i: nat): System
    requires i < CHANNELS
  {
    var c := Ch(s, i);
    if TargetsI2s(c) || s.apple
    then SyncIrq(SetCh(s, i, c.(status := WithBit(c.status, INTR, false)))) else s
  }

  function StatusValue(c: Channel): Word {
    if TargetsI2s(c) then
      (if Bit(c.status, INTR) then INTR else 0) +
      (if c.active then BUSY + (if c.left >= 4 then (c.left - 4) % TWO_TO_16 else 0)
       else c.cmd % TWO_TO_16)
    else WithBit(c.status, READY, true)
  }
}
