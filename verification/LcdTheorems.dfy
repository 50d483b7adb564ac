/** Rasters: where a stream of pixels ends up, through the block port and the command port,
    and that the cursor never leaves the graphics RAM. */
module LcdTheorems {
  import opened Words
  import opened LcdSpec

  // ------------------------------------------------------------------- cursor inside GRAM

  predicate Inside(l: Lcd) {
    l.x < W && l.y < GRAM_H && WindowInside(l.window) && l.blockRemaining <= 0x8000
  }

  predicate WindowInside(w: Window) {
    w.x0 <= w.x1 < W && w.y0 <= w.y1 < GRAM_H
  }

  /** A register write by the guest or by the DMA engine. */
  datatype Access = Access(offset: nat, value: Word)

  function Run(l: Lcd, apple: bool, accesses: seq<Access>): Lcd
    decreases |accesses|
  {
    if accesses == [] then l
    else Run(WriteReg(l, apple, accesses[0].offset, accesses[0].value), apple, accesses[1..])
  }

  lemma PushPixelInside(l: Lcd, pixel: Half)
    requires Inside(l)
    ensures Inside(PushPixel(l, pixel)) && PushPixel(l, pixel).blockRemaining == l.blockRemaining
  {
    hide At;
  }

  lemma CommandInside(l: Lcd, value: Half)
    requires Inside(l)
    ensures Inside(CommandData(l, value))
  {
    hide PushPixel, Swap16, ClampWindow, InitWindow;
    var m := l.(window := InitWindow(l.window));
    WindowsInside(l.window);
    WindowsInside(m.window.(x0 := value % 0x100, x1 := value / 0x100));
    WindowsInside(m.window.(y0 := value % 0x100, y1 := value / 0x100));
    PushPixelInside(m, Swap16(value));
  }

  lemma WindowsInside(w: Window)
    ensures WindowInside(ClampWindow(w)) && (WindowInside(w) ==> WindowInside(InitWindow(w)))
  {
  }

  lemma PortInside(l: Lcd, value: Word)
    requires Inside(l)
    ensures Inside(WritePort(l, value))
  {
    hide CommandData, Bit;
    if l.pendingData {
      CommandInside(l.(pendingData := false), l.pendingHi * 0x100 + value % 0x100);
    }
  }

  lemma BlockPixelInside(l: Lcd, pixel: Half)
    requires Inside(l)
    ensures Inside(PushBlockPixel(l, pixel))
  {
    hide PushPixel;
    PushPixelInside(l, pixel);
  }

  lemma BlockInside(l: Lcd, apple: bool, value: Word)
    requires Inside(l)
    ensures Inside(PushBlockWord(l, apple, value))
  {
    hide PushPixel, PushBlockPixel, WithBit;
    var first, second := value % TWO_TO_16, value / TWO_TO_16;
    PushPixelInside(l, first);
    PushPixelInside(PushPixel(l, first), second);
    BlockPixelInside(l, first);
    BlockPixelInside(PushBlockPixel(l, first), second);
  }

  lemma WriteInside(l: Lcd, apple: bool, offset: nat, value: Word)
    requires Inside(l)
    ensures Inside(WriteReg(l, apple, offset, value))
  {
    hide WritePort, PushBlockWord, Bit, WithBit;
    PortInside(l, value);
    BlockInside(l, apple, value);
  }

  /** In every reachable state the cursor and the window are inside the graphics RAM, so no
      pixel is ever dropped. */
  lemma {:induction false} RunInside(l: Lcd, apple: bool, accesses: seq<Access>)
    requires Inside(l)
    ensures Inside(Run(l, apple, accesses))
    decreases |accesses|
  {
    if accesses != [] {
      hide WriteReg, Inside;
      WriteInside(l, apple, accesses[0].offset, accesses[0].value);
      RunInside(WriteReg(l, apple, accesses[0].offset, accesses[0].value), apple, accesses[1..]);
    }
  }

  lemma ReachableInside(apple: bool, accesses: seq<Access>)
    ensures Inside(Run(PowerOn(), apple, accesses))
  {
    hide Run;
    RunInside(PowerOn(), apple, accesses);
  }

  // ------------------------------------------------------------------------------- raster

  function Width(w: Window): (r: nat)
    requires w.x0 <= w.x1
    ensures r > 0
  {
    w.x1 - w.x0 + 1
  }

  function Height(w: Window): (r: nat)
    requires w.y0 <= w.y1
    ensures r > 0
  {
    w.y1 - w.y0 + 1
  }

  function Area(w: Window): nat
    requires WindowInside(w)
  {
    Width(w) * Height(w)
  }

  function Column(w: Window, k: nat): nat
    requires WindowInside(w)
  {
    w.x0 + k % Width(w)
  }

  function Row(w: Window, k: nat): nat
    requires WindowInside(w)
  {
    w.y0 + k / Width(w)
  }

  /** Where pixel `k` of a raster over the window belongs: row by row from the origin. */
  function Cell(w: Window, k: nat): nat
    requires WindowInside(w)
  {
    At(Column(w, k), Row(w, k))
  }

  /** `gram` is `before` with the first pixels of a raster drawn over the window. */
  ghost predicate Drawn(gram: Gram, before: Gram, w: Window, pixels: seq<Half>)
    requires WindowInside(w)
  {
    && (forall k | 0 <= k < |pixels| :: Cell(w, k) < GRAM && gram[Cell(w, k)] == pixels[k])
    && (forall p | 0 <= p < GRAM && (forall k | 0 <= k < |pixels| :: Cell(w, k) != p) ::
          gram[p] == before[p])
  }

  predicate AtOrigin(l: Lcd) {
    l.x == l.window.x0 && l.y == l.window.y0
  }

  /** A window the controller takes as it is. */
  predicate Configured(w: Window) {
    WindowInside(w) && !(w.x1 == 0 && w.y1 == 0)
  }

  lemma DivModNext(k: nat, w: nat)
    requires w > 0
    ensures k % w == w - 1 ==> (k + 1) % w == 0 && (k + 1) / w == k / w + 1
    ensures k % w != w - 1 ==> (k + 1) % w == k % w + 1 && (k + 1) / w == k / w
  {
    if k % w == w - 1 {
      assert (k / w + 1) * w == k / w * w + w;
      ModUnique(k + 1, k / w + 1, 0, w);
    } else {
      ModUnique(k + 1, k / w, k % w + 1, w);
    }
  }

  lemma RowInside(k: nat, w: nat, h: nat)
    requires w > 0 && k < w * h
    ensures k / w < h
  {
    QuotientBelow(k, w, h);
  }

  lemma AtDiffer(x: nat, y: nat, x': nat, y': nat)
    requires x < W && x' < W && At(x, y) == At(x', y')
    ensures x == x' && y == y'
  {
  }

  lemma CellsDiffer(w: Window, j: nat, k: nat)
    requires WindowInside(w) && j < k
    ensures Cell(w, j) != Cell(w, k)
  {
    hide At;
    if Cell(w, j) == Cell(w, k) {
      AtDiffer(Column(w, j), Row(w, j), Column(w, k), Row(w, k));
    }
  }

  /** The cursor after `k` pixels. */
  predicate CursorAfter(l: Lcd, w: Window, k: nat)
    requires WindowInside(w)
  {
    if k == Area(w) then l.x == w.x0 && l.y == w.y0
    else l.x == Column(w, k) && l.y == Row(w, k)
  }

  lemma LastCell(k: nat, w: nat, h: nat)
    requires w > 0 && h > 0 && k < w * h
    ensures k + 1 == w * h <==> k % w == w - 1 && k / w == h - 1
  {
    assert w * h == h * w && (h - 1) * w == h * w - w;
    if k + 1 == w * h {
      ModUnique(k, h - 1, w - 1, w);
    }
    assert k == k / w * w + k % w;
  }

  lemma CursorNext(l: Lcd, w: Window, k: nat, pixel: Half)
    requires Configured(w) && l.window == w && k < Area(w) && CursorAfter(l, w, k)
    ensures l.x < W && l.y < GRAM_H && At(l.x, l.y) == Cell(w, k) < GRAM
    ensures CursorAfter(PushPixel(l, pixel), w, k + 1) && PushPixel(l, pixel).window == w
    ensures PushPixel(l, pixel).pixels == l.pixels[Cell(w, k) := pixel]
  {
    var width, height := Width(w), Height(w);
    RowInside(k, width, height);
    DivModNext(k, width);
    LastCell(k, width, height);
  }

  lemma DrawnMore(gram: Gram, before: Gram, w: Window, pixels: seq<Half>, pixel: Half)
    requires WindowInside(w) && Drawn(gram, before, w, pixels) && Cell(w, |pixels|) < GRAM
    ensures Drawn(gram[Cell(w, |pixels|) := pixel], before, w, pixels + [pixel])
  {
    hide Cell;
    var all, more := pixels + [pixel], gram[Cell(w, |pixels|) := pixel];
    forall k | 0 <= k < |all| ensures Cell(w, k) < GRAM && more[Cell(w, k)] == all[k] {
      if k < |pixels| {
        CellsDiffer(w, k, |pixels|);
      }
    }
    forall p | 0 <= p < GRAM && (forall k | 0 <= k < |all| :: Cell(w, k) != p)
      ensures more[p] == before[p]
    {
      assert Cell(w, |pixels|) != p;
      forall k | 0 <= k < |pixels| ensures Cell(w, k) != p {
        assert k < |all|;
      }
    }
  }

  /** A stream that starts at the origin of the window and is no longer than the window draws
      pixel `k` at column `k mod width` and row `k div width`, leaves the rest of the graphics
      RAM alone, and brings the cursor back to the origin when the window is full. */
  lemma {:induction false} Raster(l: Lcd, pixels: seq<Half>)
    requires Configured(l.window) && AtOrigin(l) && |pixels| <= Area(l.window)
    ensures var r := PushAll(l, pixels);
            && r.window == l.window
            && Drawn(r.pixels, l.pixels, l.window, pixels)
            && CursorAfter(r, l.window, |pixels|)
    decreases |pixels|
  {
    var w := l.window;
    if pixels == [] {
      hide Area;
    } else {
      hide PushPixel, Drawn, CursorAfter, Cell;
      var most, last := pixels[..|pixels| - 1], pixels[|pixels| - 1];
      Raster(l, most);
      var r := PushAll(l, most);
      CursorNext(r, w, |most|, last);
      DrawnMore(r.pixels, l.pixels, w, most, last);
      assert pixels == most + [last];
    }
  }

  // ------------------------------------------------------------- the ways pixels come in

  /** Equal apart from the block registers and the counters. */
  predicate SamePicture(a: Lcd, b: Lcd) {
    a.pixels == b.pixels && a.x == b.x && a.y == b.y && a.window == b.window
  }

  lemma {:induction false} PushAllSame(a: Lcd, b: Lcd, pixels: seq<Half>)
    requires SamePicture(a, b)
    ensures SamePicture(PushAll(a, pixels), PushAll(b, pixels))
    decreases |pixels|
  {
    if pixels != [] {
      hide InitWindow, StepX, StepY, At;
      PushAllSame(a, b, pixels[..|pixels| - 1]);
    }
  }

  lemma {:induction false} PushAllThen(l: Lcd, a: seq<Half>, b: seq<Half>)
    ensures PushAll(l, a + b) == PushAll(PushAll(l, a), b)
    decreases |b|
  {
    hide PushPixel;
    if b == [] {
      assert a + b == a;
    } else {
      var most := b[..|b| - 1];
      assert (a + b)[..|a + b| - 1] == a + most;
      PushAllThen(l, a, most);
    }
  }

  lemma PushAllOne(l: Lcd, p: Half)
    ensures PushAll(l, [p]) == PushPixel(l, p)
  {
    hide PushPixel;
    assert PushAll(l, []) == l;
  }

  lemma PushAllTwo(l: Lcd, p: Half, q: Half)
    ensures PushAll(l, [p, q]) == PushPixel(PushPixel(l, p), q)
  {
    hide PushPixel;
    PushAllOne(l, p);
    assert [p, q][..1] == [p];
  }

  /** A block word draws its low and then its high halfword, but no more than the block has
      left, and is never an overrun while the block is open. */
  lemma BlockWordDraws(l: Lcd, apple: bool, value: Word)
    requires l.blockRemaining > 0
    ensures var r := PushBlockWord(l, apple, value);
            && r.blockRemaining == (if l.blockRemaining == 1 then 0 else l.blockRemaining - 2)
            && r.overruns == l.overruns
            && SamePicture(r, PushAll(l, if l.blockRemaining == 1 then [value % TWO_TO_16]
                                         else [value % TWO_TO_16, value / TWO_TO_16]))
  {
    hide InitWindow, StepX, StepY, At, WithBit;
    PushAllOne(l, value % TWO_TO_16);
    PushAllTwo(l, value % TWO_TO_16, value / TWO_TO_16);
  }

  /** The two data bytes of a pixel on the command port. */
  function DataWrites(pixel: Half): seq<Access> {
    [Access(0x00, 0x8100_0000 + pixel / 0x100), Access(0x00, 0x8100_0000 + pixel % 0x100)]
  }

  function StreamWrites(pixels: seq<Half>): seq<Access> {
    if pixels == [] then [] else DataWrites(pixels[0]) + StreamWrites(pixels[1..])
  }

  function Swapped(pixels: seq<Half>): seq<Half> {
    seq(|pixels|, i requires 0 <= i < |pixels| => Swap16(pixels[i]))
  }

  /** The controller is in the middle of a stream to graphics RAM. */
  predicate Streaming(l: Lcd) {
    l.command == 0x22 && !l.pendingData
  }

  lemma DataByte(l: Lcd, byte: Byte)
    ensures WritePort(l, 0x8100_0000 + byte) ==
            if l.pendingData then CommandData(l.(pendingData := false), l.pendingHi * 0x100 + byte)
            else l.(pendingHi := byte, pendingData := true)
  {
    hide CommandData;
    assert (0x8100_0000 + byte) / 0x0100_0000 == 0x81;
  }

  lemma PixelStreamed(l: Lcd, apple: bool, pixel: Half)
    requires Streaming(l)
    ensures var a := DataWrites(pixel);
            var r := WriteReg(WriteReg(l, apple, 0x00, a[0].value), apple, 0x00, a[1].value);
            && Streaming(r) && r.gramPixels == l.gramPixels + 1
            && SamePicture(r, PushPixel(l, Swap16(pixel)))
  {
    hide WritePort, InitWindow, StepX, StepY, At, Swap16;
    DataByte(l, pixel / 0x100);
    var m := WritePort(l, 0x8100_0000 + pixel / 0x100);
    DataByte(m, pixel % 0x100);
    assert m.pendingHi * 0x100 + pixel % 0x100 == pixel;
    InitTwice(l.window);
  }

  lemma InitTwice(w: Window)
    ensures InitWindow(InitWindow(w)) == InitWindow(w)
  {
  }

  /** A stream through the command port draws its pixels byte-swapped. */
  lemma {:induction false} StreamDraws(l: Lcd, apple: bool, pixels: seq<Half>)
    requires Streaming(l)
    ensures var r := Run(l, apple, StreamWrites(pixels));
            && Streaming(r) && r.gramPixels == l.gramPixels + |pixels|
            && SamePicture(r, PushAll(l, Swapped(pixels)))
    decreases |pixels|
  {
    hide WriteReg, PushPixel, Swap16;
    if pixels != [] {
      var a, rest := DataWrites(pixels[0]), pixels[1..];
      var one := WriteReg(WriteReg(l, apple, 0x00, a[0].value), apple, 0x00, a[1].value);
      PixelStreamed(l, apple, pixels[0]);
      RunTwo(l, apple, a[0], a[1], StreamWrites(rest));
      assert StreamWrites(pixels) == [a[0], a[1]] + StreamWrites(rest);
      StreamDraws(one, apple, rest);
      var p := Swap16(pixels[0]);
      assert Swapped(pixels) == [p] + Swapped(rest);
      PushAllThen(l, [p], Swapped(rest));
      PushAllOne(l, p);
      PushAllSame(one, PushPixel(l, p), Swapped(rest));
    }
  }

  lemma RunTwo(l: Lcd, apple: bool, a: Access, b: Access, rest: seq<Access>)
    ensures Run(l, apple, [a, b] + rest) ==
            Run(WriteReg(WriteReg(l, apple, a.offset, a.value), apple, b.offset, b.value), apple, rest)
  {
    hide WriteReg;
    var m := WriteReg(l, apple, a.offset, a.value);
    assert ([a, b] + rest)[1..] == [b] + rest;
    assert ([b] + rest)[1..] == rest;
    assert Run(m, apple, [b] + rest) == Run(WriteReg(m, apple, b.offset, b.value), apple, rest);
  }
}
