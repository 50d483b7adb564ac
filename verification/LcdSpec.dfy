/** The LCD controller (src/dev_lcd2.c): window, cursor, graphics RAM and block transfers. */
module LcdSpec {
  import opened Words

  const W: nat := 176
  const H: nat := 132
  const GRAM_H: nat := 136
  const GRAM: nat := 23936

  const READY: nat := 0x0400_0000
  const TXOK: nat := 0x0100_0000

  type Gram = p: seq<Half> | |p| == GRAM witness seq(GRAM, i => 0)

  datatype Window = Window(x0: nat, y0: nat, x1: nat, y1: nat)

  datatype Lcd = Lcd(
    pixels: Gram,
    x: nat, y: nat,
    window: Window,
    blockCtrl: Word, blockConfig: Word, blockRemaining: nat,
    command: Half, pendingHi: Byte, pendingCommand: bool, pendingData: bool,
    words: nat, gramPixels: nat, blockPixels: nat, blockStarts: nat, overruns: nat,
    cursorSets: nat, windowSets: nat)

  function PowerOn(): Lcd {
    Lcd(seq(GRAM, i => 0), 0, 0, Window(0, 0, 0, 0), 0, 0, 0, 0, 0, false, false,
        0, 0, 0, 0, 0, 0, 0)
  }

  /** A window whose far corner is still zero has not been set up: it is the whole panel. */
  function InitWindow(w: Window): Window {
    if w.x1 == 0 && w.y1 == 0 then Window(0, 0, W - 1, H - 1) else w
  }

  function ClampWindow(w: Window): Window {
    var x0 := if w.x0 >= W then W - 1 else w.x0;
    var x1 := if w.x1 >= W then W - 1 else w.x1;
    var y0 := if w.y0 >= GRAM_H then GRAM_H - 1 else w.y0;
    var y1 := if w.y1 >= GRAM_H then GRAM_H - 1 else w.y1;
    Window(x0, y0, if x1 < x0 then x0 else x1, if y1 < y0 then y0 else y1)
  }

  function At(x: nat, y: nat): nat {
    y * W + x
  }

  /** Where the cursor goes after a pixel, inside the window and the graphics RAM. */
  function StepX(w: Window, x: nat): nat {
    if x + 1 > w.x1 || x + 1 >= W then w.x0 else x + 1
  }

  function StepY(w: Window, x: nat, y: nat): nat {
    if x + 1 > w.x1 || x + 1 >= W then
      if y + 1 > w.y1 || y + 1 >= GRAM_H then w.y0 else y + 1
    else y
  }

  function PushPixel(l: Lcd, pixel: Half): Lcd {
    var w := InitWindow(l.window);
    l.(window := w,
       pixels := if l.x < W && l.y < GRAM_H then l.pixels[At(l.x, l.y) := pixel] else l.pixels,
       x := StepX(w, l.x), y := StepY(w, l.x, l.y))
  }

  function PushAll(l: Lcd, pixels: seq<Half>): Lcd {
    if pixels == [] then l
    else PushPixel(PushAll(l, pixels[..|pixels| - 1]), pixels[|pixels| - 1])
  }

  function Swap16(v: Half): Half {
    v / 0x100 + v % 0x100 * 0x100
  }

  function CommandData(l0: Lcd, value: Half): Lcd {
    var l := l0.(window := InitWindow(l0.window));
    var lo, hi := value % 0x100, value / 0x100;
    if l.command == 0x44 then
      l.(window := ClampWindow(l.window.(x0 := lo, x1 := hi)), windowSets := l.windowSets + 1)
    else if l.command == 0x45 then
      l.(window := ClampWindow(l.window.(y0 := lo, y1 := hi)), windowSets := l.windowSets + 1)
    else if l.command == 0x21 then
      l.(x := if lo >= W then W - 1 else lo, y := if hi >= GRAM_H then GRAM_H - 1 else hi,
         cursorSets := l.cursorSets + 1)
    else if l.command == 0x22 then
      PushPixel(l, Swap16(value)).(gramPixels := l.gramPixels + 1, words := l.words + 1)
    else l
  }

  function WritePort(l: Lcd, value: Word): Lcd {
    if value == 0x8000_0000 then l.(pendingCommand := true, pendingData := false)
    else if Bit(value, 0x8000_0000) && Bit(value, 0x0100_0000) then
      if l.pendingData then
        CommandData(l.(pendingData := false), l.pendingHi * 0x100 + value % 0x100)
      else l.(pendingHi := value % 0x100, pendingData := true)
    else if Bit(value, 0x8000_0000) then
      l.(command := value % TWO_TO_16, pendingCommand := false, pendingData := false)
    else l
  }

  function StartBlock(l: Lcd): Lcd {
    l.(window := InitWindow(l.window), blockStarts := l.blockStarts + 1,
       blockCtrl := WithBit(WithBit(l.blockCtrl, READY, false), TXOK, true),
       blockRemaining := (l.blockConfig % TWO_TO_16 + 1) / 2)
  }

  function PushBlockPixel(l: Lcd, pixel: Half): Lcd {
    if l.blockRemaining == 0 then l
    else PushPixel(l, pixel).(blockPixels := l.blockPixels + 1, blockRemaining := l.blockRemaining - 1)
  }

  /** Two pixels, low halfword first. A word with no block open is an overrun on the Apple
      profile and is drawn on the other. */
  function PushBlockWord(l: Lcd, apple: bool, value: Word): Lcd {
    var first, second := value % TWO_TO_16, value / TWO_TO_16;
    if l.blockRemaining == 0 && apple then l.(overruns := l.overruns + 1)
    else if l.blockRemaining == 0 then
      PushPixel(PushPixel(l, first), second).(blockPixels := l.blockPixels + 2, words := l.words + 1)
    else
      var m := PushBlockPixel(PushBlockPixel(l, first), second);
      m.(words := l.words + 1,
         blockCtrl := if m.blockRemaining == 0
                      then WithBit(WithBit(m.blockCtrl, READY, true), TXOK, true) else m.blockCtrl)
  }

  const BLOCK_PORT: nat := 0x100

  function WriteReg(l: Lcd, apple: bool, offset: nat, value: Word): Lcd {
    if offset == 0x00 || offset == 0x0c then WritePort(l, value)
    else if offset == 0x04 then l.(blockCtrl := value)
    else if offset == 0x20 then
      var m := l.(blockCtrl := value);
      if Bit(value, 0x1000_0000) && Bit(value, 0x2000_0000) then StartBlock(m) else m
    else if offset == 0x24 then l.(blockConfig := value)
    else if offset == BLOCK_PORT then PushBlockWord(l, apple, value)
    else l
  }
}
