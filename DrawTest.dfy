/** The DrawTest driver (16-bit coordinates, DMA-staged glyphs and fills).
    The module first defines, as pure functions, the trace each public call
    sends to the panel; the class `Driver` then models the driver's globals
    and functions, each method proved to append exactly that trace. */
module DrawTestDriver {
  import opened Bits
  import opened Transport
  import opened Panel
  import opened Protocol
  import opened Raster
  import opened NumberBuffer
  import opened Screen

  // ------------------------------------------------------------ traces

  /** tft_init after the reset pulse: wake, landscape rotation, 16-bit pixels,
      both gamma tables as DMA blocks, inversion on, normal mode, display on. */
  const InitEvents: seq<Event> := InitSetup + InitGamma + InitFinish

  const InitGamma: seq<Event> :=
    [Cmd(GMCTRP1), Block(GammaPositive, 1), Cmd(GMCTRN1), Block(GammaNegative, 1)]

  /** tft_draw_pixel: a one-pixel window at the shifted position, then the colour. */
  function PixelEvents(x: u16, y: u16, color: u16): seq<Event>
  {
    var px, py := U16(x + XOffset), U16(y + YOffset);
    WindowEvents(Window(px, py, px, py)) + [Data16(color)]
  }

  /** One tft_draw_pixel per point, each coordinate passed as a `uint16_t`. */
  function PixelsEvents(pts: seq<Point>, color: u16): seq<Event>
  {
    if pts == [] then []
    else PixelEvents(U16(pts[0].x), U16(pts[0].y), color) + PixelsEvents(pts[1..], color)
  }

  /** The window tft_fill_rect and tft_draw_bitmap open for a w x h area at (x, y). */
  function AreaWindow(x: u16, y: u16, w: u16, h: u16): Window
  {
    var px, py := U16(x + XOffset), U16(y + YOffset);
    Window(px, py, U16(px + w - 1), U16(py + h - 1))
  }

  /** tft_fill_rect: one row of w pixels staged once and sent h times. */
  function FillEvents(x: u16, y: u16, w: u16, h: u16, color: u16): seq<Event>
  {
    WindowEvents(AreaWindow(x, y, w, h)) + [Block(Pack(Solid(color, w)), h)]
  }

  /** tft_draw_bitmap: the first `(w * h) << 1` bytes of the bitmap, stored in a `uint16_t`. */
  function BitmapEvents(x: u16, y: u16, w: u16, h: u16, bitmap: seq<u8>): seq<Event>
    requires BitmapBytes(w, h) <= |bitmap|
  {
    WindowEvents(AreaWindow(x, y, w, h)) + [Block(bitmap[..BitmapBytes(w, h)], 1)]
  }

  /** _tft_draw_fast_v_line on `int16_t` arguments: the offsets are added in
      `int16_t`, the window is passed as `uint16_t`. */
  function VLineEvents(x: int, y: int, h: int, color: u16): seq<Event>
  {
    var px, py := I16(x + XOffset), I16(y + YOffset);
    WindowEvents(Window(U16(px), U16(py), U16(px), U16(py + h - 1)))
    + [Block(Pack(Solid(color, Count(h))), 1)]
  }

  /** _tft_draw_fast_h_line on `int16_t` arguments. */
  function HLineEvents(x: int, y: int, w: int, color: u16): seq<Event>
  {
    var px, py := I16(x + XOffset), I16(y + YOffset);
    WindowEvents(Window(U16(px), U16(py), U16(px + w - 1), U16(py)))
    + [Block(Pack(Solid(color, Count(w))), 1)]
  }

  /** tft_draw_rect: top and bottom edges, then left and right edges. */
  function RectEvents(x: u16, y: u16, w: u16, h: u16, color: u16): seq<Event>
  {
    HLineEvents(I16(x), I16(y), I16(w), color)
    + HLineEvents(I16(x), I16(y + h - 1), I16(w), color)
    + VLineEvents(I16(x), I16(y), I16(h), color)
    + VLineEvents(I16(x + w - 1), I16(y), I16(h), color)
  }

  /** tft_print_char at cursor (cx, cy): a 5x7 window, then the glyph as one block. */
  function GlyphEvents(font: Font, c: u8, cx: u16, cy: u16, fg: u16, bg: u16): seq<Event>
  {
    WindowEvents(Window(cx, cy, U16(cx + FontWidth - 1), U16(cy + FontHeight - 1)))
    + [Block(Pack(GlyphColors(font, c, fg, bg)), 1)]
  }

  /** tft_print: one glyph per character, the cursor advancing six columns
      (the glyph width plus one column of spacing) each time, so that the
      glyph of character k sits 6 * k columns right of the start. */
  function TextEvents(font: Font, text: seq<u8>, cx: u16, cy: u16, fg: u16, bg: u16): seq<Event>
  {
    Glyphs(font, Layout(text, cx), cy, fg, bg)
  }

  /** A character of a text and the cursor column its glyph is printed at. */
  datatype Placed = Placed(code: u8, column: u16)

  /** The cursor column after n characters: each adds the glyph width plus one
      column of spacing, in `uint16_t`. */
  function CursorAfter(cx: u16, n: nat): u16
  {
    if n == 0 then cx else U16(CursorAfter(cx, n - 1) + FontWidth + 1)
  }

  /** Each character of a text at the column the cursor has reached when it is printed. */
  function Layout(text: seq<u8>, cx: u16): (r: seq<Placed>)
    ensures |r| == |text|
  {
    seq(|text|, k requires 0 <= k < |text| => Placed(text[k], CursorAfter(cx, k)))
  }

  /** The glyphs of placed characters, one after the other. */
  function Glyphs(font: Font, placed: seq<Placed>, cy: u16, fg: u16, bg: u16): seq<Event>
  {
    if placed == [] then []
    else
      var n := |placed| - 1;
      Glyphs(font, placed[..n], cy, fg, bg) + GlyphEvents(font, placed[n].code, placed[n].column, cy, fg, bg)
  }



  /** Where tft_print_number starts printing a text of `len` characters: shifted
      right by the slack when the requested width exceeds the text's width. */
  function NumberStart(cx: u16, width: u16, len: nat): u16
  {
    var numWidth := 6 * len - 1;
    if width > numWidth then U16(cx + width - numWidth) else cx
  }

  // ------------------------------------------------------------ driver

  class Driver {
    /** Text cursor, in controller coordinates (the panel offsets already added). */
    var cursorX: u16
    var cursorY: u16
    /** Text foreground and background colours. */
    var color: u16
    var bgColor: u16
    /** The level of the DC line: true while bytes are data, false for commands. */
    var dc: bool
    /** Everything sent to the panel so far. */
    var trace: seq<Event>
    /** `_buffer`: DMA staging buffer holding one row of pixels. */
    const buffer: array<u8>
    /** The static digit buffer of tft_print_number. */
    const digits: DigitBuffer
    /** The 5x7 font table, five column bytes per character code. */
    const font: Font

    ghost predicate Valid()
    {
      buffer.Length == RowBufferBytes && digits.Valid() && buffer != digits.cells
    }

    /** The globals' initial values: cursor at 0, white on black, zeroed buffers. */
    constructor (font: Font)
      ensures Valid() && fresh(buffer) && fresh(digits) && fresh(digits.cells) && this.font == font
      ensures cursorX == 0 && cursorY == 0 && color == WHITE && bgColor == BLACK
      ensures buffer[..] == seq(RowBufferBytes, _ => 0) && !dc && trace == []
    {
      cursorX, cursorY := 0, 0;
      color, bgColor := WHITE, BLACK;
      dc := false;
      trace := [];
      buffer := new u8[RowBufferBytes](_ => 0);
      digits := new DigitBuffer();
      this.font := font;
    }

    // -------------------------------------------------------- transport

    /** SPI_send: one byte, tagged by the current DC level. */
    method SpiSend(b: u8)
      modifies this`trace
      ensures trace == old(trace) + [if dc then Data(b) else Cmd(b)]
    {
      trace := trace + [if dc then Data(b) else Cmd(b)];
    }

    /** SPI_send_DMA: the first `size` bytes of `source`, `repeat` times over.
        Every caller raises DC first, so the block is data. */
    method SendDMA(source: seq<u8>, size: u16, repeat: u16)
      requires dc && size <= |source|
      modifies this`trace
      ensures trace == old(trace) + [Block(source[..size], repeat)]
    {
      trace := trace + [Block(source[..size], repeat)];
    }

    /** DATA_MODE(): DC high. */
    method DataMode()
      modifies this`dc
      ensures dc
    {
      dc := true;
    }

    /** write_command_8: DC low, then the opcode; the byte is a command whatever DC was before. */
    method WriteCommand8(cmd: u8)
      modifies this`trace, this`dc
      ensures trace == old(trace) + [Cmd(cmd)] && !dc
    {
      dc := false;
      SpiSend(cmd);
    }

    /** write_data_8: DC high, then the byte. */
    method WriteData8(data: u8)
      modifies this`trace, this`dc
      ensures trace == old(trace) + [Data(data)] && dc
    {
      DataMode();
      SpiSend(data);
    }

    /** write_data_16: DC high, then `data >> 8` and `(uint8_t)data`. */
    method WriteData16(data: u16)
      modifies this`trace, this`dc
      ensures trace == old(trace) + [Data16(data)] && dc
    {
      DataMode();
      trace := trace + [Data16(data)];
    }

    /** tft_set_window. */
    method SetWindow(x0: u16, y0: u16, x1: u16, y1: u16)
      modifies this`trace, this`dc
      ensures trace == old(trace) + WindowEvents(Window(x0, y0, x1, y1)) && !dc
    {
      WriteCommand8(CASET);
      WriteData16(x0);
      WriteData16(x1);
      WriteCommand8(RASET);
      WriteData16(y0);
      WriteData16(y1);
      WriteCommand8(RAMWR);
    }

    /** tft_init after SPI_init: the reset pulse, then the command sequence,
        in the three sections below. */
    method Init()
      modifies this`trace, this`dc
      ensures trace == old(trace) + InitEvents && !dc
    {
      Wake();
      SendGamma();
      SwitchOn();
      AppendAssoc(old(trace), InitSetup, InitGamma);
      AppendAssoc(old(trace), InitSetup + InitGamma, InitFinish);
    }

    /** The reset pulse, sleep out, the rotation and the pixel format. */
    method Wake()
      modifies this`trace, this`dc
      ensures trace == old(trace) + InitSetup && dc
    {
      trace := trace + [Reset];
      WriteCommand8(SLPOUT);
      WriteCommand8(MADCTL);
      WriteData8(Rotation0);
      WriteCommand8(COLMOD);
      WriteData8(COLMOD_16BPP);
    }

    /** Both gamma tables, each sent as one 16-byte DMA block. */
    method SendGamma()
      modifies this`trace, this`dc
      ensures trace == old(trace) + InitGamma && dc
    {
      WriteCommand8(GMCTRP1);
      DataMode();
      SendDMA(GammaPositive, 16, 1);
      assert GammaPositive[..16] == GammaPositive;
      WriteCommand8(GMCTRN1);
      DataMode();
      SendDMA(GammaNegative, 16, 1);
      assert GammaNegative[..16] == GammaNegative;
    }

    /** Inversion on, normal display mode, display on. */
    method SwitchOn()
      modifies this`trace, this`dc
      ensures trace == old(trace) + InitFinish && !dc
    {
      WriteCommand8(INVON);
      WriteCommand8(NORON);
      WriteCommand8(DISPON);
    }

    // ------------------------------------------------------ text state

    /** tft_set_cursor: the panel offsets are added in `uint16_t`. */
    method SetCursor(x: u16, y: u16)
      modifies this`cursorX, this`cursorY
      ensures cursorX == U16(x + XOffset) && cursorY == U16(y + YOffset)
    {
      cursorX := U16(x + XOffset);
      cursorY := U16(y + YOffset);
    }

    method SetColor(c: u16)
      modifies this`color
      ensures color == c
    {
      color := c;
    }

    method SetBackgroundColor(c: u16)
      modifies this`bgColor
      ensures bgColor == c
    {
      bgColor := c;
    }

    // ------------------------------------------------------------ text

    /** The expansion loop of tft_print_char: the glyph's 35 pixels, row by row,
        each as its high then low byte, at the start of the buffer. */
    method StageGlyph(c: u8, fg: u16, bg: u16) returns (sz: u16)
      requires Valid()
      modifies buffer
      ensures sz == 2 * FontWidth * FontHeight
      ensures buffer[..] == Staged(old(buffer[..]), Pack(GlyphColors(font, c, fg, bg)))
    {
      ghost var glyph := Pack(GlyphColors(font, c, fg, bg));
      sz := 0;
      var i := 0;
      while i < FontHeight
        invariant 0 <= i <= FontHeight && sz == 10 * i
        invariant forall k :: 0 <= k < sz ==> buffer[k] == glyph[k]
        invariant forall k :: sz <= k < buffer.Length ==> buffer[k] == old(buffer[k])
      {
        var j := 0;
        while j < FontWidth
          invariant 0 <= j <= FontWidth && sz == 10 * i + 2 * j
          invariant forall k :: 0 <= k < sz ==> buffer[k] == glyph[k]
          invariant forall k :: sz <= k < buffer.Length ==> buffer[k] == old(buffer[k])
        {
          var pixel := if GlyphBit(font, c, i, j) then fg else bg;
          GlyphBytes(font, c, fg, bg, i, j);
          sz := StagePixel(sz, pixel, glyph);
          j := j + 1;
        }
        i := i + 1;
      }
      assert buffer[..] == Staged(old(buffer[..]), glyph);
    }

    /** `buffer[sz++] = pixel >> 8; buffer[sz++] = pixel;` extending a staged prefix of `bytes`. */
    method StagePixel(sz: u16, pixel: u16, ghost bytes: seq<u8>) returns (sz': u16)
      requires Valid() && sz + 2 <= |bytes| && sz + 2 <= buffer.Length
      requires bytes[sz] == Hi(pixel) && bytes[sz + 1] == Lo(pixel)
      requires forall k :: 0 <= k < sz ==> buffer[k] == bytes[k]
      modifies buffer
      ensures sz' == sz + 2
      ensures forall k :: 0 <= k < sz' ==> buffer[k] == bytes[k]
      ensures forall k :: sz' <= k < buffer.Length ==> buffer[k] == old(buffer[k])
    {
      buffer[sz] := pixel / 0x100;
      buffer[sz + 1] := pixel % 0x100;
      sz' := sz + 2;
    }

    /** tft_print_char: expand the glyph into the buffer, then send it into a
        5x7 window at the cursor. */
    method PrintChar(c: u8)
      requires Valid()
      modifies this`trace, this`dc, buffer
      ensures trace == old(trace) + GlyphEvents(font, c, cursorX, cursorY, color, bgColor) && dc
      ensures buffer[..] == Staged(old(buffer[..]), Pack(GlyphColors(font, c, color, bgColor)))
    {
      var sz := StageGlyph(c, color, bgColor);
      SetWindow(cursorX, cursorY, U16(cursorX + FontWidth - 1), U16(cursorY + FontHeight - 1));
      DataMode();
      SendDMA(buffer[..], sz, 1);
      assert buffer[..][..sz] == Pack(GlyphColors(font, c, color, bgColor));
      GlyphTrace(old(trace), trace, font, c, cursorX, cursorY, color, bgColor);
    }

    /** tft_print: every character of the NUL-terminated string, advancing the
        cursor by the glyph width plus one column of spacing. */
    method Print(str: seq<u8>)
      requires Valid() && 0 in str
      modifies this`trace, this`dc, this`cursorX, buffer
      ensures var text := CString(str);
              && trace == old(trace) + TextEvents(font, text, old(cursorX), cursorY, color, bgColor)
              && cursorX == U16(old(cursorX) + 6 * |text|)
              && dc == (if text == [] then old(dc) else true)
    {
      ghost var text, cx0, t0 := CString(str), cursorX, trace;
      var i := 0;
      while str[i] != 0
        invariant 0 <= i <= |text|
        invariant trace == t0 + TextEvents(font, text[..i], cx0, cursorY, color, bgColor)
        invariant cursorX == CursorAfter(cx0, i)
        invariant dc == (if i == 0 then old(dc) else true)
        decreases |text| - i
      {
        assert str[i] == text[i];
        PrintNext(str[i], t0, text, i, cx0);
        i := i + 1;
      }
      assert text[..i] == text;
      CursorAfterIs(cx0, i);
    }

    /** One turn of tft_print's loop: the character, then the cursor six columns on. */
    method PrintNext(c: u8, ghost t0: seq<Event>, ghost text: seq<u8>, ghost i: nat, ghost cx0: u16)
      requires Valid() && i < |text| && text[i] == c && cursorX == CursorAfter(cx0, i)
      requires trace == t0 + TextEvents(font, text[..i], cx0, cursorY, color, bgColor)
      modifies this`trace, this`dc, this`cursorX, buffer
      ensures trace == t0 + TextEvents(font, text[..i + 1], cx0, cursorY, color, bgColor)
      ensures cursorX == CursorAfter(cx0, i + 1) && dc
    {
      PrintChar(c);
      PrintStep(t0, trace, font, text, i, cx0, cursorX, cursorY, color, bgColor);
      cursorX := U16(cursorX + FontWidth + 1);
    }

    /** tft_print_number: format, shift the cursor right when `width` asks for
        more columns than the text takes, then print the text. */
    method PrintNumber(num: int, width: u16)
      requires Valid() && Int32Min < num <= Int32Max
      modifies this`trace, this`dc, this`cursorX, buffer, digits.cells
      ensures var text := NumberText(num);
              var start := NumberStart(old(cursorX), width, |text|);
              && trace == old(trace) + TextEvents(font, text, start, cursorY, color, bgColor)
              && cursorX == U16(start + 6 * |text|)
      ensures dc
      ensures var position := 11 - |NumberText(num)|;
              digits.cells[..] == old(digits.cells[..position]) + NumberText(num) + [0]
    {
      var str := PlaceNumber(num, width);
      ghost var formatted := digits.cells[..];
      Print(str);
      assert digits.cells[..] == formatted;
    }

    /** The first half of tft_print_number: the text into the digit buffer and
        the cursor moved to where the text starts. */
    method PlaceNumber(num: int, width: u16) returns (str: seq<u8>)
      requires Valid() && Int32Min < num <= Int32Max
      modifies this`cursorX, digits.cells
      ensures 0 in str && CString(str) == NumberText(num)
      ensures cursorX == NumberStart(old(cursorX), width, |NumberText(num)|)
      ensures var position := 11 - |NumberText(num)|;
              digits.cells[..] == old(digits.cells[..position]) + NumberText(num) + [0]
    {
      var position := digits.Format(num);
      assert digits.cells[..] == old(digits.cells[..position]) + NumberText(num) + [0];
      ghost var text := NumberText(num);
      var len := 11 - position;
      assert len == |text|;
      var numWidth := 6 * len - 1;
      ghost var start := NumberStart(cursorX, width, len);
      if width > numWidth {
        cursorX := U16(cursorX + width - numWidth);
      }
      assert cursorX == start;
      str := digits.cells[position..];
      CStringOfTerminated(text, []);
      assert str == text + [0] + [];
      assert CString(str) == text;
    }

    // --------------------------------------------------------- drawing

    /** The staging loop of the fills and fast lines: `n` pixels of one colour,
        high byte first, at the start of the buffer. */
    method StageColor(c: u16, n: int) returns (sz: u16)
      requires Valid() && 2 * n <= RowBufferBytes
      modifies buffer
      ensures sz == 2 * Count(n)
      ensures buffer[..] == Staged(old(buffer[..]), Pack(Solid(c, Count(n))))
    {
      ghost var row := Pack(Solid(c, Count(n)));
      sz := 0;
      var j := 0;
      while j < n
        invariant 0 <= j <= Count(n) && sz == 2 * j
        invariant forall k :: 0 <= k < sz ==> buffer[k] == row[k]
        invariant forall k :: sz <= k < buffer.Length ==> buffer[k] == old(buffer[k])
      {
        buffer[sz] := c / 0x100;
        buffer[sz + 1] := c % 0x100;
        sz := sz + 2;
        j := j + 1;
      }
      assert buffer[..] == Staged(old(buffer[..]), row);
    }

    /** tft_draw_pixel. */
    method DrawPixel(x: u16, y: u16, c: u16)
      modifies this`trace, this`dc
      ensures trace == old(trace) + PixelEvents(x, y, c) && dc
    {
      var px, py := U16(x + XOffset), U16(y + YOffset);
      SetWindow(px, py, px, py);
      WriteData16(c);
    }

    /** tft_fill_rect: one row staged, sent `h` times. The row must fit the buffer. */
    method FillRect(x: u16, y: u16, w: u16, h: u16, c: u16)
      requires Valid() && 2 * w <= RowBufferBytes
      modifies this`trace, this`dc, buffer
      ensures trace == old(trace) + FillEvents(x, y, w, h, c) && dc
      ensures buffer[..] == Staged(old(buffer[..]), Pack(Solid(c, w)))
    {
      var px, py := U16(x + XOffset), U16(y + YOffset);
      var sz := StageColor(c, w);
      assert AreaWindow(x, y, w, h) == Window(px, py, U16(px + w - 1), U16(py + h - 1));
      SetWindow(px, py, U16(px + w - 1), U16(py + h - 1));
      DataMode();
      SendDMA(buffer[..], sz, h);
      assert buffer[..][..sz] == Pack(Solid(c, w));
    }

    /** tft_draw_bitmap: the bitmap is sent straight from the caller's memory. */
    method DrawBitmap(x: u16, y: u16, w: u16, h: u16, bitmap: seq<u8>)
      requires BitmapBytes(w, h) <= |bitmap|
      modifies this`trace, this`dc
      ensures trace == old(trace) + BitmapEvents(x, y, w, h, bitmap) && dc
    {
      var px, py := U16(x + XOffset), U16(y + YOffset);
      assert AreaWindow(x, y, w, h) == Window(px, py, U16(px + w - 1), U16(py + h - 1));
      SetWindow(px, py, U16(px + w - 1), U16(py + h - 1));
      DataMode();
      SendDMA(bitmap, BitmapBytes(w, h), 1);
    }

    /** _tft_draw_fast_v_line: arguments are `int16_t`; the staged column must fit the buffer. */
    method DrawFastVLine(x: int, y: int, h: int, c: u16)
      requires Valid() && IsI16(x) && IsI16(y) && IsI16(h) && 2 * h <= RowBufferBytes
      modifies this`trace, this`dc, buffer
      ensures trace == old(trace) + VLineEvents(x, y, h, c) && dc
      ensures buffer[..] == Staged(old(buffer[..]), Pack(Solid(c, Count(h))))
    {
      var px, py := I16(x + XOffset), I16(y + YOffset);
      var sz := StageColor(c, h);
      ghost var t0 := trace;
      SetWindow(U16(px), U16(py), U16(px), U16(py + h - 1));
      DataMode();
      SendDMA(buffer[..], sz, 1);
      assert buffer[..][..sz] == Pack(Solid(c, Count(h)));
      assert trace == t0 + (WindowEvents(Window(U16(px), U16(py), U16(px), U16(py + h - 1)))
                            + [Block(Pack(Solid(c, Count(h))), 1)]);
    }

    /** _tft_draw_fast_h_line. */
    method DrawFastHLine(x: int, y: int, w: int, c: u16)
      requires Valid() && IsI16(x) && IsI16(y) && IsI16(w) && 2 * w <= RowBufferBytes
      modifies this`trace, this`dc, buffer
      ensures trace == old(trace) + HLineEvents(x, y, w, c) && dc
      ensures buffer[..] == Staged(old(buffer[..]), Pack(Solid(c, Count(w))))
    {
      var px, py := I16(x + XOffset), I16(y + YOffset);
      var sz := StageColor(c, w);
      ghost var t0 := trace;
      SetWindow(U16(px), U16(py), U16(px + w - 1), U16(py));
      DataMode();
      SendDMA(buffer[..], sz, 1);
      assert buffer[..][..sz] == Pack(Solid(c, Count(w)));
      assert trace == t0 + (WindowEvents(Window(U16(px), U16(py), U16(px + w - 1), U16(py)))
                            + [Block(Pack(Solid(c, Count(w))), 1)]);
    }

    /** _tft_draw_line_bresenham: one tft_draw_pixel per point of the line.
        Coordinates are kept small enough that no `int16_t` step wraps. */
    method DrawLineBresenham(x0: int, y0: int, x1: int, y1: int, c: u16)
      requires NoWrap(x0) && NoWrap(y0) && NoWrap(x1) && NoWrap(y1)
      modifies this`trace, this`dc
      ensures trace == old(trace) + PixelsEvents(LinePoints(x0, y0, x1, y1), c) && dc
    {
      var steep := Diff(y1, y0) > Diff(x1, x0);
      var a0, b0, a1, b1 := x0, y0, x1, y1;
      if steep {
        a0, b0 := b0, a0;
        a1, b1 := b1, a1;
      }
      if a0 > a1 {
        a0, a1 := a1, a0;
        b0, b1 := b1, b0;
      }
      var dx := a1 - a0;
      var dy := Diff(b1, b0);
      var err := dx / 2;
      var step := if b0 < b1 then 1 else -1;
      ghost var start := a0;
      ghost var total := old(trace) + PixelsEvents(LinePoints(x0, y0, x1, y1), c);
      assert (a0, b0, a1, b1) == Normalise(x0, y0, x1, y1);
      LinePointsFrom(x0, y0, x1, y1, a0, b0, a1, b1, err, dx, dy, step, steep);
      while a0 <= a1
        invariant start <= a0 <= a1 + 1
        invariant total == trace + PixelsEvents(Run(a0, a1, b0, err, dx, dy, step, steep), c)
        invariant a0 == start || dc
        decreases a1 + 1 - a0
      {
        ghost var t0, a, b, e := trace, a0, b0, err;
        if steep {
          DrawPixel(U16(b0), U16(a0), c);
        } else {
          DrawPixel(U16(a0), U16(b0), c);
        }
        err := err - dy;
        if err < 0 {
          err := err + dx;
          b0 := b0 + step;
        }
        a0 := a0 + 1;
        LineStep(total, t0, trace, a, a1, b, e, dx, dy, step, steep, c, a0, b0, err);
      }
    }

    /** tft_draw_rect: two horizontal and two vertical fast lines; the `uint16_t`
        arguments become `int16_t`. Each side must fit the buffer. */
    method DrawRect(x: u16, y: u16, w: u16, h: u16, c: u16)
      requires Valid() && 2 * I16(w) <= RowBufferBytes && 2 * I16(h) <= RowBufferBytes
      modifies this`trace, this`dc, buffer
      ensures trace == old(trace) + RectEvents(x, y, w, h, c) && dc
      ensures buffer[..] == Staged(Staged(old(buffer[..]), Pack(Solid(c, Count(I16(w))))),
                                   Pack(Solid(c, Count(I16(h)))))
    {
      ghost var t0, b0 := trace, buffer[..];
      DrawFastHLine(I16(x), I16(y), I16(w), c);
      DrawFastHLine(I16(x), I16(y + h - 1), I16(w), c);
      ghost var b2 := buffer[..];
      DrawFastVLine(I16(x), I16(y), I16(h), c);
      DrawFastVLine(I16(x + w - 1), I16(y), I16(h), c);
      ghost var row, column := Pack(Solid(c, Count(I16(w)))), Pack(Solid(c, Count(I16(h))));
      StagedTwice(b0, row, row);
      StagedTwice(b2, column, column);
      AppendFour(t0, HLineEvents(I16(x), I16(y), I16(w), c), HLineEvents(I16(x), I16(y + h - 1), I16(w), c),
                 VLineEvents(I16(x), I16(y), I16(h), c), VLineEvents(I16(x + w - 1), I16(y), I16(h), c));
    }

    /** tft_draw_line: vertical and horizontal lines go through the fast paths
        with the endpoints ordered; everything else through Bresenham. */
    method DrawLine(x0: int, y0: int, x1: int, y1: int, c: u16)
      requires Valid() && IsI16(x0) && IsI16(y0) && IsI16(x1) && IsI16(y1)
      requires LineFitsBuffer(x0, y0, x1, y1)
      requires x0 != x1 && y0 != y1 ==> NoWrap(x0) && NoWrap(y0) && NoWrap(x1) && NoWrap(y1)
      modifies this`trace, this`dc, buffer
      ensures dc
      ensures x0 == x1 ==>
                && trace == old(trace) + VLineEvents(x0, Min(y0, y1), I16(Diff(y1, y0) + 1), c)
                && buffer[..] == Staged(old(buffer[..]), Pack(Solid(c, Count(I16(Diff(y1, y0) + 1)))))
      ensures x0 != x1 && y0 == y1 ==>
                && trace == old(trace) + HLineEvents(Min(x0, x1), y0, I16(Diff(x1, x0) + 1), c)
                && buffer[..] == Staged(old(buffer[..]), Pack(Solid(c, Count(I16(Diff(x1, x0) + 1)))))
      ensures x0 != x1 && y0 != y1 ==>
                && trace == old(trace) + PixelsEvents(LinePoints(x0, y0, x1, y1), c)
                && buffer[..] == old(buffer[..])
    {
      if x0 == x1 {
        var a, b := y0, y1;
        if a > b {
          a, b := b, a;
        }
        assert a == Min(y0, y1) && b - a == Diff(y1, y0);
        DrawFastVLine(x0, a, I16(b - a + 1), c);
      } else if y0 == y1 {
        var a, b := x0, x1;
        if a > b {
          a, b := b, a;
        }
        assert a == Min(x0, x1) && b - a == Diff(x1, x0);
        DrawFastHLine(a, y0, I16(b - a + 1), c);
      } else {
        DrawLineBresenham(x0, y0, x1, y1, c);
      }
    }
  }

  /** A vertical or horizontal line stages at most one row buffer of pixels. */
  predicate LineFitsBuffer(x0: int, y0: int, x1: int, y1: int)
  {
    && (x0 == x1 ==> 2 * I16(Diff(y1, y0) + 1) <= RowBufferBytes)
    && (x0 != x1 && y0 == y1 ==> 2 * I16(Diff(x1, x0) + 1) <= RowBufferBytes)
  }

  /** Coordinates for which no `int16_t` arithmetic of the line algorithm wraps. */
  predicate NoWrap(v: int)
  {
    -0x4000 <= v < 0x4000
  }

  function Min(a: int, b: int): int
  {
    if a < b then a else b
  }

  // ------------------------------------------------------------ lemmas


  /** Pixel (row, col) of a glyph is bytes 10 row + 2 col and the next of its packed stream. */
  lemma GlyphBytes(font: Font, c: u8, fg: u16, bg: u16, row: nat, col: nat)
    requires row < FontHeight && col < FontWidth
    ensures var glyph, pixel := Pack(GlyphColors(font, c, fg, bg)), if GlyphBit(font, c, row, col) then fg else bg;
            glyph[10 * row + 2 * col] == Hi(pixel) && glyph[10 * row + 2 * col + 1] == Lo(pixel)
  {
    GlyphPixel(font, c, fg, bg, row, col);
    var k := 10 * row + 2 * col;
    assert (k + 1) / 2 == k / 2 == 5 * row + col;
  }

  /** One iteration of tft_print: the glyph printed at the advanced cursor extends the text trace. */
  lemma PrintStep(t0: seq<Event>, t: seq<Event>, font: Font, text: seq<u8>, i: nat,
                  cx0: u16, cx: u16, cy: u16, fg: u16, bg: u16)
    requires i < |text|
    requires cx == CursorAfter(cx0, i)
    requires t == t0 + TextEvents(font, text[..i], cx0, cy, fg, bg) + GlyphEvents(font, text[i], cx, cy, fg, bg)
    ensures t == t0 + TextEvents(font, text[..i + 1], cx0, cy, fg, bg)
  {
    assert text[..i] + [text[i]] == text[..i + 1];
    TextSnoc(font, text[..i], text[i], cx0, cy, fg, bg);
    AppendAssoc(t0, TextEvents(font, text[..i], cx0, cy, fg, bg), GlyphEvents(font, text[i], cx, cy, fg, bg));
  }


  /** A window followed by the glyph block is the trace of one printed character. */
  lemma GlyphTrace(t0: seq<Event>, t: seq<Event>, font: Font, c: u8, cx: u16, cy: u16, fg: u16, bg: u16)
    requires t == t0 + WindowEvents(Window(cx, cy, U16(cx + FontWidth - 1), U16(cy + FontHeight - 1)))
                 + [Block(Pack(GlyphColors(font, c, fg, bg)), 1)]
    ensures t == t0 + GlyphEvents(font, c, cx, cy, fg, bg)
  {
    AppendAssoc(t0, WindowEvents(Window(cx, cy, U16(cx + FontWidth - 1), U16(cy + FontHeight - 1))),
                [Block(Pack(GlyphColors(font, c, fg, bg)), 1)]);
  }

  /** One turn of the Bresenham loop: the pixel just drawn is the first point of
      the remaining run, and the run continues from the updated error term. */
  lemma LineStep(total: seq<Event>, t0: seq<Event>, t: seq<Event>, x: int, x1: int, y: int,
                 err: int, dx: int, dy: int, step: int, steep: bool, c: u16,
                 x': int, y': int, err': int)
    requires x <= x1 && x' == x + 1
    requires total == t0 + PixelsEvents(Run(x, x1, y, err, dx, dy, step, steep), c)
    requires t == t0 + (if steep then PixelEvents(U16(y), U16(x), c) else PixelEvents(U16(x), U16(y), c))
    requires y' == (if err - dy < 0 then y + step else y)
    requires err' == (if err - dy < 0 then err - dy + dx else err - dy)
    ensures total == t + PixelsEvents(Run(x', x1, y', err', dx, dy, step, steep), c)
  {
    var rest := Run(x, x1, y, err, dx, dy, step, steep);
    var p := Orient(x, y, steep);
    var pixel := PixelEvents(U16(p.x), U16(p.y), c);
    assert rest == [p] + Run(x + 1, x1, y', err', dx, dy, step, steep);
    assert rest[0] == p && rest[1..] == Run(x + 1, x1, y', err', dx, dy, step, steep);
    assert PixelsEvents(rest, c) == pixel + PixelsEvents(rest[1..], c);
    AppendAssoc(t0, pixel, PixelsEvents(rest[1..], c));
  }

  /** Printing one more character appends its glyph at the cursor reached
      after the earlier ones. */
  lemma TextSnoc(font: Font, text: seq<u8>, c: u8, cx: u16, cy: u16, fg: u16, bg: u16)
    ensures TextEvents(font, text + [c], cx, cy, fg, bg)
            == TextEvents(font, text, cx, cy, fg, bg) + GlyphEvents(font, c, CursorAfter(cx, |text|), cy, fg, bg)
  {
    var placed := Layout(text + [c], cx);
    assert placed[..|text|] == Layout(text, cx);
    assert placed[|text|] == Placed(c, CursorAfter(cx, |text|));
  }

  /** The cursor after n characters is 6 * n columns further right, in `uint16_t`. */
  lemma {:induction false} CursorAfterIs(cx: u16, n: nat)
    ensures CursorAfter(cx, n) == U16(cx + 6 * n)
  {
    if n > 0 {
      CursorAfterIs(cx, n - 1);
      U16Step(cx + 6 * (n - 1), 6);
    }
  }

  /** m characters and then n more leave the cursor where m + n characters do. */
  lemma {:induction false} CursorAfterAdd(cx: u16, m: nat, n: nat)
    ensures CursorAfter(CursorAfter(cx, m), n) == CursorAfter(cx, m + n)
  {
    if n > 0 {
      CursorAfterAdd(cx, m, n - 1);
    }
  }

  /** The layout of a + b: b's characters start at the cursor reached after a. */
  lemma LayoutAppend(a: seq<u8>, b: seq<u8>, cx: u16)
    ensures Layout(a + b, cx) == Layout(a, cx) + Layout(b, CursorAfter(cx, |a|))
  {
    var l, r := Layout(a + b, cx), Layout(a, cx) + Layout(b, CursorAfter(cx, |a|));
    forall k | 0 <= k < |l| ensures l[k] == r[k] {
      if k >= |a| {
        CursorAfterAdd(cx, |a|, k - |a|);
      }
    }
  }

  /** The glyphs of placed characters split at any point. */
  lemma {:induction false} GlyphsAppend(font: Font, p: seq<Placed>, q: seq<Placed>, cy: u16, fg: u16, bg: u16)
    ensures Glyphs(font, p + q, cy, fg, bg) == Glyphs(font, p, cy, fg, bg) + Glyphs(font, q, cy, fg, bg)
  {
    if q == [] {
      assert p + q == p;
    } else {
      var m := |q| - 1;
      var g := GlyphEvents(font, q[m].code, q[m].column, cy, fg, bg);
      assert |p + q| - 1 == |p| + m;
      assert (p + q)[..|p| + m] == p + q[..m] && (p + q)[|p| + m] == q[m];
      assert Glyphs(font, p + q, cy, fg, bg) == Glyphs(font, p + q[..m], cy, fg, bg) + g;
      GlyphsAppend(font, p, q[..m], cy, fg, bg);
      AppendAssoc(Glyphs(font, p, cy, fg, bg), Glyphs(font, q[..m], cy, fg, bg), g);
    }
  }

  /** Printing a then b sends what printing a + b sends: b starts at the cursor
      reached after a. */
  lemma TextEventsAppend(font: Font, a: seq<u8>, b: seq<u8>, cx: u16, cy: u16, fg: u16, bg: u16)
    ensures TextEvents(font, a + b, cx, cy, fg, bg)
            == TextEvents(font, a, cx, cy, fg, bg)
               + TextEvents(font, b, CursorAfter(cx, |a|), cy, fg, bg)
  {
    LayoutAppend(a, b, cx);
    GlyphsAppend(font, Layout(a, cx), Layout(b, CursorAfter(cx, |a|)), cy, fg, bg);
  }

  // ------------------------------------------------------------ properties

  /** The window of a w x h area at (x, y) runs from (x + 1, y + 26) to
      (x + w, y + h + 25), all in `uint16_t`. */
  lemma AreaWindowCorners(x: u16, y: u16, w: u16, h: u16)
    ensures AreaWindow(x, y, w, h) == Window(U16(x + 1), U16(y + 26), U16(x + w), U16(y + h + 25))
  {
    U16Step(x + 1, w - 1);
    U16Step(y + 26, h - 1);
  }

  /** tft_fill_rect puts on the wire the 11 bytes of its window and then exactly
      w * h pixels of the colour: the row staged once, replayed h times. */
  lemma FillCovers(x: u16, y: u16, w: u16, h: u16, color: u16)
    ensures Flatten(FillEvents(x, y, w, h, color))
            == WindowWire(Window(U16(x + 1), U16(y + 26), U16(x + w), U16(y + h + 25)))
               + DataBytes(Pack(Solid(color, w * h)))
  {
    var window := AreaWindow(x, y, w, h);
    var block := Block(Pack(Solid(color, w)), h);
    AreaWindowCorners(x, y, w, h);
    FlattenAppend(WindowEvents(window), [block]);
    WindowEventsWire(window);
    FlattenBlock(Pack(Solid(color, w)), h);
    RepeatSolid(color, w, h);
  }

  /** A fast horizontal line away from the `int16_t` limits is a filled rectangle one row high. */
  lemma HLineIsFill(x: u16, y: u16, w: u16, color: u16)
    requires x + w < 0x7FFF && y + 26 < 0x8000 && 1 <= w
    ensures HLineEvents(x, y, w, color) == FillEvents(x, y, w, 1, color)
  {
    assert I16(x + XOffset) == x + 1 && I16(y + YOffset) == y + 26;
    assert U16(x + 1 + w - 1) == x + w;
  }

  /** A fast vertical line away from the `int16_t` limits puts on the wire what a
      filled rectangle one column wide does: h pixels in one block rather than
      one pixel replayed h times. */
  lemma VLineIsFill(x: u16, y: u16, h: u16, color: u16)
    requires x + 1 < 0x8000 && y + h + 26 < 0x8000 && 1 <= h
    ensures Flatten(VLineEvents(x, y, h, color)) == Flatten(FillEvents(x, y, 1, h, color))
  {
    assert I16(x + XOffset) == x + 1 && I16(y + YOffset) == y + 26;
    assert U16(y + 26 + h - 1) == y + h + 25;
    var window := AreaWindow(x, y, 1, h);
    assert VLineEvents(x, y, h, color) == WindowEvents(window) + [Block(Pack(Solid(color, h)), 1)];
    FlattenAppend(WindowEvents(window), [Block(Pack(Solid(color, h)), 1)]);
    FlattenAppend(WindowEvents(window), [Block(Pack(Solid(color, 1)), h)]);
    FlattenBlock(Pack(Solid(color, h)), 1);
    FlattenBlock(Pack(Solid(color, 1)), h);
    RepeatSolid(color, 1, h);
    RepeatSolid(color, h, 1);
  }

  /** tft_draw_rect puts on the wire the outline as four filled rectangles one
      pixel thick: the top row, the bottom row at y + h - 1, the left column and
      the right column at x + w - 1. */
  lemma RectIsFourEdges(x: u16, y: u16, w: u16, h: u16, color: u16)
    requires 1 <= w && 1 <= h && x + w < 0x7FFF && y + h + 26 < 0x8000
    ensures Flatten(RectEvents(x, y, w, h, color))
            == Flatten(FillEvents(x, y, w, 1, color)) + Flatten(FillEvents(x, y + h - 1, w, 1, color))
               + Flatten(FillEvents(x, y, 1, h, color)) + Flatten(FillEvents(x + w - 1, y, 1, h, color))
  {
    assert I16(x) == x && I16(y) == y && I16(w) == w && I16(h) == h;
    assert I16(y + h - 1) == y + h - 1 && I16(x + w - 1) == x + w - 1;
    var top, bottom := HLineEvents(x, y, w, color), HLineEvents(x, y + h - 1, w, color);
    var left, right := VLineEvents(x, y, h, color), VLineEvents(x + w - 1, y, h, color);
    HLineIsFill(x, y, w, color);
    HLineIsFill(x, y + h - 1, w, color);
    VLineIsFill(x, y, h, color);
    VLineIsFill(x + w - 1, y, h, color);
    FlattenAppend(top + bottom + left, right);
    FlattenAppend(top + bottom, left);
    FlattenAppend(top, bottom);
  }

  /** tft_draw_pixel opens the one-pixel window at (x + 1, y + 26) and sends the
      colour, high byte first. */
  lemma PixelCovers(x: u16, y: u16, color: u16)
    ensures var px, py := U16(x + 1), U16(y + 26);
            Flatten(PixelEvents(x, y, color))
            == WindowWire(Window(px, py, px, py)) + [DataByte(color / 0x100), DataByte(color % 0x100)]
  {
    var px, py := U16(x + 1), U16(y + 26);
    FlattenAppend(WindowEvents(Window(px, py, px, py)), [Data16(color)]);
    WindowEventsWire(Window(px, py, px, py));
    FlattenCons(Data16(color), []);
    assert [Data16(color)] + [] == [Data16(color)];
  }

  /** tft_print_char opens a 5 x 7 window at the cursor and fills it with the
      glyph's 35 pixels, each sent high byte first. */
  lemma GlyphCovers(font: Font, c: u8, cx: u16, cy: u16, fg: u16, bg: u16)
    requires cx + 4 < 0x1_0000 && cy + 6 < 0x1_0000
    ensures var wire := Flatten(GlyphEvents(font, c, cx, cy, fg, bg));
            && |wire| == 11 + 70
            && ParseWindow(wire[..11]) == Some(Window(cx, cy, cx + 4, cy + 6))
            && wire[11..] == DataBytes(Pack(GlyphColors(font, c, fg, bg)))
  {
    var window := Window(cx, cy, cx + 4, cy + 6);
    var glyph := Pack(GlyphColors(font, c, fg, bg));
    assert GlyphEvents(font, c, cx, cy, fg, bg) == WindowEvents(window) + [Block(glyph, 1)];
    WindowThenBlock(window, glyph);
  }

  /** With a width wider than its text, tft_print_number right-aligns the number:
      the last glyph fills the last five of the `width` columns from the cursor.
      A narrower width leaves the text at the cursor. */
  lemma NumberRightAligned(font: Font, num: int, width: u16, cx: u16, cy: u16, fg: u16, bg: u16)
    requires Int32Min < num <= Int32Max && cx + width < 0x1_0000
    ensures var text := NumberText(num);
            var n := |text|;
            var start := NumberStart(cx, width, n);
            && (width > 6 * n - 1 ==>
                  TextEvents(font, text, start, cy, fg, bg)
                  == TextEvents(font, text[..n - 1], start, cy, fg, bg)
                     + GlyphEvents(font, text[n - 1], cx + width - FontWidth, cy, fg, bg))
            && (width <= 6 * n - 1 ==> start == cx)
  {
    RightAligned(font, NumberText(num), width, cx, cy, fg, bg);
  }

  /** The same for any non-empty text placed by NumberStart. */
  lemma RightAligned(font: Font, text: seq<u8>, width: u16, cx: u16, cy: u16, fg: u16, bg: u16)
    requires text != [] && cx + width < 0x1_0000
    ensures var n := |text|;
            var start := NumberStart(cx, width, n);
            && (width > 6 * n - 1 ==>
                  TextEvents(font, text, start, cy, fg, bg)
                  == TextEvents(font, text[..n - 1], start, cy, fg, bg)
                     + GlyphEvents(font, text[n - 1], cx + width - FontWidth, cy, fg, bg))
            && (width <= 6 * n - 1 ==> start == cx)
  {
    var n := |text|;
    if width > 6 * n - 1 {
      LastCharacter(font, text, NumberStart(cx, width, n), cy, fg, bg);
      LastGlyphColumn(cx, width, n);
    }
  }

  /** The last character of a text is printed 6 * (n - 1) columns right of the start. */
  lemma LastCharacter(font: Font, s: seq<u8>, cx: u16, cy: u16, fg: u16, bg: u16)
    requires s != []
    ensures TextEvents(font, s, cx, cy, fg, bg)
            == TextEvents(font, s[..|s| - 1], cx, cy, fg, bg)
               + GlyphEvents(font, s[|s| - 1], U16(cx + 6 * (|s| - 1)), cy, fg, bg)
  {
    var n := |s| - 1;
    assert s[..n] + [s[n]] == s;
    TextSnoc(font, s[..n], s[n], cx, cy, fg, bg);
    CursorAfterIs(cx, n);
  }

  /** The column of the last of n right-aligned characters. */
  lemma LastGlyphColumn(cx: u16, width: u16, n: nat)
    requires 1 <= n && width > 6 * n - 1 && cx + width < 0x1_0000
    ensures U16(NumberStart(cx, width, n) + 6 * (n - 1)) == cx + width - FontWidth
  {
    var start := NumberStart(cx, width, n);
    assert start == cx + width - (6 * n - 1);
    assert start + 6 * (n - 1) == cx + width - FontWidth;
  }

  // ------------------------------------------------------------ on the panel

  /** The controller cell tft_draw_pixel stores a point at: each coordinate
      passed as a `uint16_t`, then shifted by the panel offsets in `uint16_t`. */
  function Target(p: Point): Point
  {
    Point(U16(U16(p.x) + XOffset), U16(U16(p.y) + YOffset))
  }

  function Targets(pts: seq<Point>): (r: seq<Point>)
    ensures |r| == |pts|
  {
    seq(|pts|, i requires 0 <= i < |pts| => Target(pts[i]))
  }

  /** One tft_draw_pixel per point stores the colour at each point's target
      cell, in order, and changes nothing else. */
  lemma {:induction false} PixelsPaint(s: Controller, pts: seq<Point>, c: u16)
    ensures Apply(s, Flatten(PixelsEvents(pts, c))).frame == Plot(s.frame, Targets(pts), c)
    decreases |pts|
  {
    if pts != [] {
      var p := pts[0];
      var first, rest := PixelEvents(U16(p.x), U16(p.y), c), PixelsEvents(pts[1..], c);
      FlattenAppend(first, rest);
      ApplyAppend(s, Flatten(first), Flatten(rest));
      PixelCovers(U16(p.x), U16(p.y), c);
      PixelPaint(s, U16(U16(p.x) + 1), U16(U16(p.y) + 26), c);
      PixelsPaint(Apply(s, Flatten(first)), pts[1..], c);
      assert Targets(pts)[0] == Target(p) && Targets(pts)[1..] == Targets(pts[1..]);
    }
  }

  /** tft_fill_rect puts on the wire the window of the area filled with the colour. */
  lemma FillWire(x: u16, y: u16, w: u16, h: u16, c: u16)
    requires 1 <= w && 1 <= h && x + w < 0x1_0000 && y + h + 26 <= 0x1_0000
    ensures Flatten(FillEvents(x, y, w, h, c)) == SolidWire(Area(x, y, w, h), c)
  {
    var area := Area(x, y, w, h);
    SmallWord(x + 1); SmallWord(y + 26); SmallWord(x + w); SmallWord(y + h + 25);
    assert Columns(area) == w && Rows(area) == h;
    FillCovers(x, y, w, h, c);
  }

  /** tft_fill_rect on the panel: every cell of the area, shifted by the
      offsets, holds the colour, and every other cell is untouched. */
  lemma FillPaintsArea(s: Controller, x: u16, y: u16, w: u16, h: u16, c: u16, p: Point)
    requires 1 <= w && 1 <= h && x + w < 0x1_0000 && y + h + 26 <= 0x1_0000
    ensures At(Apply(s, Flatten(FillEvents(x, y, w, h, c))).frame, p)
            == if x + 1 <= p.x <= x + w && y + 26 <= p.y <= y + h + 25 then Some(c) else At(s.frame, p)
  {
    FillWire(x, y, w, h, c);
    SolidPaint(s, Area(x, y, w, h), c, p);
  }

  /** The cells of a rectangle, sent one tft_draw_pixel each, land exactly on
      the window tft_fill_rect opens for it. */
  lemma CellsTargets(x: u16, y: u16, w: u16, h: u16, p: Point)
    requires 1 <= w && 1 <= h && x + w < 0x1_0000 && y + h + 26 <= 0x1_0000
    ensures p in Targets(Cells(x, y, w, h)) <==> InWindow(Area(x, y, w, h), p)
  {
    var area, targets := Area(x, y, w, h), Targets(Cells(x, y, w, h));
    assert Columns(area) == w && Rows(area) == h;
    forall k | 0 <= k < w * h
      ensures targets[k] == Cell(area, k)
    {
      CellIndex(area, k);
      SmallWord(x + k % w); SmallWord(x + k % w + 1); SmallWord(y + k / w); SmallWord(y + k / w + 26);
    }
    if p in targets {
      var k :| 0 <= k < |targets| && targets[k] == p;
      CellIndex(area, k);
    }
    if InWindow(area, p) {
      IndexCell(area, p);
      assert targets[Index(area, p)] == p;
    }
  }

  /** tft_fill_rect and one tft_draw_pixel for every cell of the same
      rectangle leave the controller's memory the same. */
  lemma FillEqualsPixels(s: Controller, x: u16, y: u16, w: u16, h: u16, c: u16)
    requires 1 <= w && 1 <= h && x + w < 0x1_0000 && y + h + 26 <= 0x1_0000
    ensures Apply(s, Flatten(FillEvents(x, y, w, h, c))).frame
            == Apply(s, Flatten(PixelsEvents(Cells(x, y, w, h), c))).frame
  {
    var fill := Apply(s, Flatten(FillEvents(x, y, w, h, c))).frame;
    var pixels := Apply(s, Flatten(PixelsEvents(Cells(x, y, w, h), c))).frame;
    PixelsPaint(s, Cells(x, y, w, h), c);
    forall p
      ensures At(fill, p) == At(pixels, p)
    {
      FillWire(x, y, w, h, c);
      SolidPaint(s, Area(x, y, w, h), c, p);
      PlotAt(s.frame, Targets(Cells(x, y, w, h)), c, p);
      CellsTargets(x, y, w, h, p);
    }
    SameFrame(fill, pixels);
  }

  /** tft_draw_rect puts on the wire the outline of the rectangle's area,
      one edge fill at a time. */
  lemma RectWire(x: u16, y: u16, w: u16, h: u16, c: u16)
    requires 1 <= w && 1 <= h && x + w < 0x7FFF && y + h + 26 < 0x8000
    ensures Flatten(RectEvents(x, y, w, h, c)) == OutlineWire(Area(x, y, w, h), c)
  {
    var o := Area(x, y, w, h);
    var top, bottom := Window(o.x0, o.y0, o.x1, o.y0), Window(o.x0, o.y1, o.x1, o.y1);
    var left, right := Window(o.x0, o.y0, o.x0, o.y1), Window(o.x1, o.y0, o.x1, o.y1);
    RectIsFourEdges(x, y, w, h, c);
    assert Flatten(FillEvents(x, y, w, 1, c)) == SolidWire(top, c) by {
      assert Area(x, y, w, 1) == top;
      FillWire(x, y, w, 1, c);
    }
    assert Flatten(FillEvents(x, y + h - 1, w, 1, c)) == SolidWire(bottom, c) by {
      assert Area(x, y + h - 1, w, 1) == bottom;
      FillWire(x, y + h - 1, w, 1, c);
    }
    assert Flatten(FillEvents(x, y, 1, h, c)) == SolidWire(left, c) by {
      assert Area(x, y, 1, h) == left;
      FillWire(x, y, 1, h, c);
    }
    assert Flatten(FillEvents(x + w - 1, y, 1, h, c)) == SolidWire(right, c) by {
      assert Area(x + w - 1, y, 1, h) == right;
      FillWire(x + w - 1, y, 1, h, c);
    }
  }

  /** tft_draw_rect on the panel: the outline of the rectangle, shifted by the
      offsets, holds the colour, its four corners among it, and every other
      cell, the interior included, is untouched. */
  lemma RectBorder(s: Controller, x: u16, y: u16, w: u16, h: u16, c: u16, p: Point)
    requires 1 <= w && 1 <= h && x + w < 0x7FFF && y + h + 26 < 0x8000
    ensures var frame := Apply(s, Flatten(RectEvents(x, y, w, h, c))).frame;
            && At(frame, p) == (if OnBorder(Area(x, y, w, h), p) then Some(c) else At(s.frame, p))
            && (p.x in {x + 1, x + w} && p.y in {y + 26, y + h + 25} ==> At(frame, p) == Some(c))
            && (x + 1 < p.x < x + w && y + 26 < p.y < y + h + 25 ==> At(frame, p) == At(s.frame, p))
  {
    RectWire(x, y, w, h, c);
    OutlinePaint(s, Area(x, y, w, h), c, p);
  }

  /** The scan-line demo calls tft_draw_line(0, i, 180, i): a horizontal line of
      181 pixels whose 362 staged bytes run past the 320-byte row buffer. */
  lemma DemoScanLineOverflows(i: u8)
    ensures !LineFitsBuffer(0, i, 180, i)
    ensures 2 * (Diff(180, 0) + 1) - RowBufferBytes == 42
  {
  }

  /** A scan line across the panel's width, tft_draw_line(0, i, 159, i), fits the
      buffer and fills exactly visible row i, columns 1 to 160 of the controller. */
  lemma DemoScanLineWithinPanel(i: u8, color: u16)
    requires i < Height
    ensures LineFitsBuffer(0, i, Width - 1, i)
    ensures I16(Diff(Width - 1, 0) + 1) == Width
    ensures Flatten(HLineEvents(0, i, Width, color))
            == WindowWire(Window(1, i + 26, 160, i + 26)) + DataBytes(Pack(Solid(color, Width)))
  {
    HLineIsFill(0, i, Width, color);
    FillCovers(0, i, Width, 1, color);
  }
}
