/** The DMA engine in its own form: channel registers in an array, and loops that move words
    from memory into the audio FIFO and the LCD controller. */
module DmaDevice {
  import opened Words
  import Spec = DmaSpec
  import Intc
  import Ram
  import I2sSpec
  import I2sDevice
  import LcdSpec
  import LcdDevice

  class Engine {
    const ch: array<Spec.Channel>
    const i2s: I2sDevice.Device
    const lcd: LcdDevice.Device
    const intc: Intc.Controller
    const ram: Ram.Dram
    const apple: bool
    var linked: bool
    var accepts: nat
    var mismatches: nat
    var descriptorPixels: nat
    var blockPixels: nat

    constructor (i2s: I2sDevice.Device, lcd: LcdDevice.Device, intc: Intc.Controller,
                 ram: Ram.Dram, apple: bool)
      requires i2s.Valid() && lcd.Valid() && ram.Valid()
      requires Apart(i2s, lcd)
      ensures Valid() && fresh(ch) && State() == Spec.PowerOn()
      ensures this.i2s == i2s && this.lcd == lcd && this.intc == intc && this.ram == ram
    {
      this.i2s, this.lcd, this.intc, this.ram, this.apple := i2s, lcd, intc, ram, apple;
      ch := new Spec.Channel[Spec.CHANNELS](i =>
        Spec.Channel(0, 0, 0, 0, false, 0, 0, 0, 0, false, 0, 0, 0));
      linked, accepts, mismatches, descriptorPixels, blockPixels := false, 0, 0, 0, 0;
      new;
      assert ch[..] == Spec.PowerOn().ch;
    }

    /** The devices do not share their buffers. */
    static ghost predicate Apart(i2s: I2sDevice.Device, lcd: LcdDevice.Device) {
      (lcd.pixels as object) !in {i2s.fifo as object, i2s.ring as object}
    }

    ghost predicate Valid()
      reads i2s, i2s.fifo, i2s.ring
    {
      ch.Length == Spec.CHANNELS && i2s.Valid() && lcd.Valid() && ram.Valid() && Apart(i2s, lcd)
    }

    ghost function State(): Spec.Dma
      requires ch.Length == Spec.CHANNELS
      reads this, ch
    {
      Spec.Dma(ch[..], accepts, mismatches, descriptorPixels, blockPixels)
    }

    ghost function Value(): Spec.System
      requires Valid()
      reads this, ch, i2s, i2s.fifo, i2s.ring, lcd, lcd.pixels, intc, ram, ram.sdram, ram.fast
    {
      Spec.System(State(), i2s.State(), lcd.State(), intc.lines, Ram.Reader(ram.Value()), apple, linked)
    }

    method SyncIrq()
      requires Valid()
      modifies intc
      ensures Value() == Spec.SyncIrq(old(Value()))
    {
      hide Bit, Intc.SetLow;
      var pending := false;
      for channel := 0 to Spec.CHANNELS
        invariant pending <==> exists k :: 0 <= k < channel && Bit(ch[k].status, Spec.INTR)
      {
        if Bit(ch[channel].status, Spec.INTR) {
          pending := true;
        }
      }
      assert pending == Spec.AnyIntr(State());
      if pending {
        intc.Assert(Intc.DMA);
      } else {
        intc.Deassert(Intc.DMA);
      }
    }

    method SetChannel(i: nat, c: Spec.Channel)
      requires Valid() && i < Spec.CHANNELS
      modifies ch
      ensures Valid() && Value() == Spec.SetCh(old(Value()), i, c)
    {
      ghost var after := ch[..][i := c];
      ch[i] := c;
      assert ch[..] == after;
    }

    // ----------------------------------------------------------------------------- audio

    /** Ends the transfer, with an interrupt when the command asks for one. */
    method Complete(i: nat)
      requires Valid() && i < Spec.CHANNELS
      modifies ch, intc
      ensures Valid() && Value() == Spec.Complete(old(Value()), i)
    {
      hide Bit, WithBit, Spec.AnyIntr, Intc.SetLow, I2sDevice.Holds, I2sDevice.Window;
      var done := ch[i].(active := false, completions := ch[i].completions + 1);
      if Bit(ch[i].cmd, Spec.INTR) {
        SetChannel(i, done.(status := WithBit(ch[i].status, Spec.INTR, true)));
        SyncIrq();
      } else {
        SetChannel(i, done);
      }
    }

    /** One word into the FIFO. */
    method FeedWord(i: nat, word: Word)
      requires Valid() && i < Spec.CHANNELS
      modifies ch, i2s, i2s.fifo, intc
      ensures Valid() && Value() == Spec.FeedWord(old(Value()), i, word)
    {
      hide I2sSpec.Push, I2sSpec.UpdateIrq, I2sDevice.Holds, I2sDevice.Window;
      i2s.PushTx(intc, 4, word);
      SetChannel(i, Spec.Counted(ch[i]));
    }

    /** Moves words while the FIFO has room; a word that is not in memory stops the channel. */
    method AudioRun(i: nat)
      requires Valid() && i < Spec.CHANNELS
      modifies ch, i2s, i2s.fifo, intc
      ensures Valid() && Value() == Spec.AudioRun(old(Value()), i)
    {
      hide Spec.FeedWord, Spec.Complete, I2sDevice.Holds, I2sDevice.Window, Add32;
      if !ch[i].active || !Spec.TargetsI2s(ch[i]) { return; }
      ghost var target := Spec.Feed(Value(), i);
      while ch[i].left > 0 && I2sSpec.DEPTH - i2s.fill >= 2
        invariant Valid() && Spec.Feed(Value(), i) == target
        decreases ch[i].left
      {
        ghost var s := Value();
        var word := ram.FetchWord(ch[i].addr);
        if word.None? {
          SetChannel(i, ch[i].(active := false));
          return;
        }
        FeedGoesOn(s, i, word.value);
        FeedWord(i, word.value);
      }
      if ch[i].left == 0 {
        Complete(i);
      } else {
        FeedWaits(Value(), i);
      }
    }

    static lemma FeedGoesOn(s: Spec.System, i: nat, word: Word)
      requires i < Spec.CHANNELS && Spec.Ch(s, i).left > 0 && I2sSpec.Free(s.i2s) >= 2
      requires s.fetch(Spec.Ch(s, i).addr) == Some(word)
      ensures Spec.Feed(s, i) == Spec.Feed(Spec.FeedWord(s, i, word), i)
      ensures Spec.Ch(Spec.FeedWord(s, i, word), i).left < Spec.Ch(s, i).left
    {
      hide Spec.Complete, I2sSpec.Push, I2sSpec.UpdateIrq;
    }

    static lemma FeedWaits(s: Spec.System, i: nat)
      requires i < Spec.CHANNELS && Spec.Ch(s, i).left > 0 && I2sSpec.Free(s.i2s) < 2
      ensures Spec.Feed(s, i) == s
    {
      hide Spec.Complete, I2sSpec.Push;
    }

    method AudioCommand(i: nat, cmd: Word)
      requires Valid() && i < Spec.CHANNELS
      modifies ch, i2s, i2s.fifo, intc
      ensures Valid() && Value() == Spec.AudioCommand(old(Value()), i, cmd)
    {
      hide Spec.AudioRun, Spec.SyncIrq, I2sDevice.Holds, I2sDevice.Window, Bit, WithBit;
      var c := ch[i];
      if !Spec.TargetsI2s(c) { return; }
      if Bit(cmd, Spec.START) {
        SetChannel(i, c.(addr := c.ram, left := Spec.TransferBytes(cmd), active := true,
                         starts := c.starts + 1));
        AudioRun(i);
      } else if Bit(cmd, Spec.INTR) {
        SetChannel(i, c.(active := false));
      } else {
        SetChannel(i, c.(active := false, status := WithBit(c.status, Spec.INTR, false)));
        SyncIrq();
      }
    }

    // ------------------------------------------------------------------------------- LCD

    /** Pours a transfer into one LCD register, word by word. */
    method Pour(addr: Word, bytes: nat, port: nat)
      requires Valid()
      modifies lcd, lcd.pixels
      ensures Valid()
      ensures Value() == old(Value()).(lcd := Spec.Pour(old(Value()).lcd, old(Value()).fetch, apple,
                                                        addr, 0, bytes, port))
    {
      hide I2sDevice.Holds, I2sDevice.Window, LcdSpec.WriteReg, Add32;
      ghost var was := Value();
      ghost var target := Spec.Pour(was.lcd, was.fetch, apple, addr, 0, bytes, port);
      var off := 0;
      while off < bytes
        invariant Valid() && Value() == was.(lcd := Value().lcd)
        invariant Spec.Pour(Value().lcd, was.fetch, apple, addr, off, bytes, port) == target
        decreases bytes + 4 - off
      {
        ghost var l := Value().lcd;
        var word := ram.FetchWord(Add32(addr, off));
        if word.None? {
          return;
        }
        lcd.Write(apple, port, word.value);
        off := off + 4;
      }
    }

    method PourChannel(i: nat)
      requires Valid() && i < Spec.CHANNELS && Spec.TargetsLcd(ch[i])
      modifies ch, intc, lcd, lcd.pixels
      ensures Valid() && Value() == Spec.PourChannel(old(Value()), i)
    {
      hide Spec.Pour, Spec.SyncIrq, I2sDevice.Holds, I2sDevice.Window, WithBit, Bit;
      var c := ch[i];
      var dispatched := apple && linked;
      Pour(c.ram, Spec.TransferBytes(c.cmd), c.per - Spec.LCD2_BASE);
      c := c.(lcdTransfers := c.lcdTransfers + 1);
      if !apple {
        c := c.(cmd := WithBit(c.cmd, Spec.WAIT_REQ, false));
      }
      c := c.(status := WithBit(c.status, Spec.READY, true));
      if dispatched {
        c := c.(status := WithBit(c.status, Spec.INTR, true));
      }
      SetChannel(i, c);
      if dispatched {
        SyncIrq();
      }
    }

    /** On the Apple profile a request waits for a block of its size. */
    method TryLcd(i: nat)
      requires Valid() && i < Spec.CHANNELS
      modifies this, ch, intc, lcd, lcd.pixels
      ensures Valid() && Value() == Spec.TryLcd(old(Value()), i) && linked == old(linked)
    {
      hide Spec.PourChannel, I2sDevice.Holds, I2sDevice.Window, Bit;
      var c := ch[i];
      if !Bit(c.cmd, Spec.WAIT_REQ) || !Spec.TargetsLcd(c) { return; }
      if apple {
        if !c.armed || lcd.blockRemaining == 0 { return; }
        var pixels := Spec.TransferBytes(c.cmd) / 2;
        if lcd.blockRemaining != pixels {
          if c.mismatchStart != lcd.blockStarts {
            SetChannel(i, c.(mismatchStart := lcd.blockStarts));
            mismatches := mismatches + 1;
          }
          return;
        }
        accepts := accepts + 1;
        descriptorPixels := descriptorPixels + pixels;
        blockPixels := blockPixels + lcd.blockRemaining;
        SetChannel(i, c.(armed := false));
      }
      PourChannel(i);
    }

    // ---------------------------------------------------------------- tick and registers

    method Tick()
      requires Valid()
      modifies this, ch, i2s, i2s.fifo, intc, lcd, lcd.pixels
      ensures Valid() && Value() == Spec.Tick(old(Value())) && linked == old(linked)
    {
      hide Spec.TryLcd, Spec.AudioRun, I2sDevice.Holds, I2sDevice.Window;
      for channel := 0 to Spec.CHANNELS
        invariant Valid() && Value() == Spec.TickChannels(old(Value()), channel)
        invariant linked == old(linked)
      {
        TryLcd(channel);
        AudioRun(channel);
      }
    }

    method Write(offset: nat, value: Word)
      requires Valid()
      modifies this, ch, i2s, i2s.fifo, intc, lcd, lcd.pixels
      ensures Valid() && Value() == Spec.WriteReg(old(Value()), offset, value)
    {
      hide Spec.TryLcd, Spec.AudioCommand, Spec.StoreReg, I2sDevice.Holds, I2sDevice.Window, Bit;
      if !(Spec.CH_BASE <= offset < Spec.CH_BASE + Spec.CHANNELS * Spec.STRIDE) { return; }
      var i, reg := (offset - Spec.CH_BASE) / Spec.STRIDE, offset % Spec.STRIDE;
      if !(reg == 4 && Spec.TargetsI2s(ch[i])) {
        SetChannel(i, Spec.StoreReg(ch[i], reg, value));
      }
      if reg == 0 {
        AudioCommand(i, value);
        if apple {
          SetChannel(i, ch[i].(armed := Bit(value, Spec.WAIT_REQ)));
        }
      }
      if !apple {
        TryLcd(i);
      }
    }

    /** Reading a status register; audio channels report how far they are. */
    method ReadStatus(i: nat) returns (r: Word)
      requires Valid() && i < Spec.CHANNELS
      modifies ch, intc
      ensures Valid() && r == Spec.StatusValue(old(ch[i]))
      ensures Value() == Spec.ReadStatus(old(Value()), i)
    {
      hide Spec.SyncIrq, I2sDevice.Holds, I2sDevice.Window, WithBit, Bit, Spec.StatusValue;
      r := Spec.StatusValue(ch[i]);
      if Spec.TargetsI2s(ch[i]) || apple {
        SetChannel(i, ch[i].(status := WithBit(ch[i].status, Spec.INTR, false)));
        SyncIrq();
      }
    }
  }
}
