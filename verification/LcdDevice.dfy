/** The LCD controller in its own form: the graphics RAM is an array drawn into in place. */
module LcdDevice {
  import opened Words
  import Spec = LcdSpec

  class Device {
    const pixels: array<Half>
    var x: nat
    var y: nat
    var window: Spec.Window
    var blockCtrl: Word
    var blockConfig: Word
    var blockRemaining: nat
    var command: Half
    var pendingHi: Byte
    var pendingCommand: bool
    var pendingData: bool
    var words: nat
    var gramPixels: nat
    var blockPixels: nat
    var blockStarts: nat
    var overruns: nat
    var cursorSets: nat
    var windowSets: nat

    ghost predicate Valid() {
      pixels.Length == Spec.GRAM
    }

    ghost function State(): Spec.Lcd
      requires Valid()
      reads this, pixels
    {
      Spec.Lcd(pixels[..], x, y, window, blockCtrl, blockConfig, blockRemaining, command,
               pendingHi, pendingCommand, pendingData, words, gramPixels, blockPixels, blockStarts,
               overruns, cursorSets, windowSets)
    }

    constructor ()
      ensures Valid() && fresh(pixels) && State() == Spec.PowerOn()
    {
      pixels := new Half[Spec.GRAM](i => 0);
      x, y, window := 0, 0, Spec.Window(0, 0, 0, 0);
      blockCtrl, blockConfig, blockRemaining := 0, 0, 0;
      command, pendingHi, pendingCommand, pendingData := 0, 0, false, false;
      words, gramPixels, blockPixels, blockStarts := 0, 0, 0, 0;
      overruns, cursorSets, windowSets := 0, 0, 0;
      new;
      assert pixels[..] == Spec.PowerOn().pixels;
    }

    method InitWindow()
      requires Valid()
      modifies this`window
      ensures window == Spec.InitWindow(old(window))
    {
      if window.x1 == 0 && window.y1 == 0 {
        window := window.(x0 := 0);
        window := window.(y0 := 0);
        window := window.(x1 := Spec.W - 1);
        window := window.(y1 := Spec.H - 1);
      }
    }

    method ClampWindow()
      requires Valid()
      modifies this`window
      ensures window == Spec.ClampWindow(old(window))
    {
      if window.x0 >= Spec.W { window := window.(x0 := Spec.W - 1); }
      if window.x1 >= Spec.W { window := window.(x1 := Spec.W - 1); }
      if window.y0 >= Spec.GRAM_H { window := window.(y0 := Spec.GRAM_H - 1); }
      if window.y1 >= Spec.GRAM_H { window := window.(y1 := Spec.GRAM_H - 1); }
      if window.x1 < window.x0 { window := window.(x1 := window.x0); }
      if window.y1 < window.y0 { window := window.(y1 := window.y0); }
    }

    /** Draws at the cursor and steps it through the window. */
    method PushPixel(pixel: Half)
      requires Valid()
      modifies this`x, this`y, this`window, pixels
      ensures State() == Spec.PushPixel(old(State()), pixel)
    {
      InitWindow();
      ghost var gram := pixels[..];
      if x < Spec.W && y < Spec.GRAM_H {
        gram := gram[Spec.At(x, y) := pixel];
        pixels[y * Spec.W + x] := pixel;
      }
      assert pixels[..] == gram;
      x := x + 1;
      if x > window.x1 || x >= Spec.W {
        x := window.x0;
        y := y + 1;
        if y > window.y1 || y >= Spec.GRAM_H {
          y := window.y0;
        }
      }
    }

    method SetCursor(cx: nat, cy: nat)
      requires Valid()
      modifies this`x, this`y
      ensures x == (if cx >= Spec.W then Spec.W - 1 else cx)
      ensures y == (if cy >= Spec.GRAM_H then Spec.GRAM_H - 1 else cy)
    {
      x := if cx >= Spec.W then Spec.W - 1 else cx;
      y := if cy >= Spec.GRAM_H then Spec.GRAM_H - 1 else cy;
    }

    method CommandData(value: Half)
      requires Valid()
      modifies this, pixels
      ensures State() == Spec.CommandData(old(State()), value)
    {
      hide Spec.PushPixel, Spec.InitWindow, Spec.ClampWindow, Spec.Swap16;
      InitWindow();
      var lo, hi := value % 0x100, value / 0x100;
      match command {
        case 0x44 =>
          window := window.(x0 := lo, x1 := hi);
          windowSets := windowSets + 1;
          ClampWindow();
        case 0x45 =>
          window := window.(y0 := lo, y1 := hi);
          windowSets := windowSets + 1;
          ClampWindow();
        case 0x21 =>
          SetCursor(lo, hi);
          cursorSets := cursorSets + 1;
        case 0x22 =>
          PushCounted(Spec.Swap16(value));
        case _ =>
      }
    }

    method PushCounted(pixel: Half)
      requires Valid()
      modifies this, pixels
      ensures State() == Spec.PushPixel(old(State()), pixel).(gramPixels := old(gramPixels) + 1,
                                                              words := old(words) + 1)
    {
      hide Spec.InitWindow, Spec.StepX, Spec.StepY, Spec.At;
      PushPixel(pixel);
      gramPixels := gramPixels + 1;
      words := words + 1;
    }

    method WritePort(value: Word)
      requires Valid()
      modifies this, pixels
      ensures State() == Spec.WritePort(old(State()), value)
    {
      hide Spec.CommandData;
      if value == 0x8000_0000 {
        pendingCommand, pendingData := true, false;
        return;
      }
      if Bit(value, 0x8000_0000) && Bit(value, 0x0100_0000) {
        if pendingData {
          var data: Half := pendingHi * 0x100 + value % 0x100;
          pendingData := false;
          CommandData(data);
        } else {
          pendingHi := value % 0x100;
          pendingData := true;
        }
        return;
      }
      if Bit(value, 0x8000_0000) {
        command := value % TWO_TO_16;
        pendingCommand, pendingData := false, false;
      }
    }

    method StartBlock()
      requires Valid()
      modifies this
      ensures State() == Spec.StartBlock(old(State()))
    {
      hide Spec.InitWindow;
      InitWindow();
      blockStarts := blockStarts + 1;
      blockCtrl := WithBit(blockCtrl, Spec.READY, false);
      blockCtrl := WithBit(blockCtrl, Spec.TXOK, true);
      blockRemaining := (blockConfig % TWO_TO_16 + 1) / 2;
    }

    method PushBlockPixel(pixel: Half)
      requires Valid()
      modifies this, pixels
      ensures State() == Spec.PushBlockPixel(old(State()), pixel)
    {
      hide Spec.InitWindow, Spec.StepX, Spec.StepY, Spec.At;
      if blockRemaining > 0 {
        PushPixel(pixel);
        blockPixels := blockPixels + 1;
        blockRemaining := blockRemaining - 1;
      }
    }

    method PushBlockWord(apple: bool, value: Word)
      requires Valid()
      modifies this, pixels
      ensures State() == Spec.PushBlockWord(old(State()), apple, value)
    {
      hide WithBit, Spec.InitWindow, Spec.StepX, Spec.StepY, Spec.At;
      var first, second := value % TWO_TO_16, value / TWO_TO_16;
      if blockRemaining == 0 && apple {
        overruns := overruns + 1;
        return;
      }
      if blockRemaining == 0 {
        PushPixel(first);
        PushPixel(second);
        blockPixels := blockPixels + 2;
        words := words + 1;
        return;
      }
      PushBlockPixel(first);
      PushBlockPixel(second);
      words := words + 1;
      if blockRemaining == 0 {
        blockCtrl := WithBit(blockCtrl, Spec.READY, true);
        blockCtrl := WithBit(blockCtrl, Spec.TXOK, true);
      }
    }

    method Write(apple: bool, offset: nat, value: Word)
      requires Valid()
      modifies this, pixels
      ensures State() == Spec.WriteReg(old(State()), apple, offset, value)
    {
      hide Spec.WritePort, Spec.StartBlock, Spec.PushBlockWord;
      match offset {
        case 0x00 | 0x0c => WritePort(value);
        case 0x04 => blockCtrl := value;
        case 0x20 =>
          blockCtrl := value;
          if Bit(value, 0x1000_0000) && Bit(value, 0x2000_0000) {
            StartBlock();
          }
        case 0x24 => blockConfig := value;
        case 0x100 => PushBlockWord(apple, value);
        case _ =>
      }
    }
  }
}
