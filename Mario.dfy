/** The driver of the Mario example: `uint8_t` coordinates, an address window
    sent one byte at a time, glyphs streamed one pixel at a time, and numbers
    padded with spaces to eleven characters. As for the DrawTest driver, the
    module first defines the trace of each call and the class `Driver` then
    proves that each function of the driver appends exactly that trace. */
module MarioDriver {
  import opened Bits
  import opened Transport
  import opened Panel
  import opened Protocol
  import opened Raster
  import opened NumberBuffer
  import opened Screen

  // ------------------------------------------------------------ traces

  /** tft_init after the reset pulse: the same commands as the DrawTest driver,
      but every gamma parameter is its own write_data_8. */
  const InitEvents: seq<Event> := InitSetup + InitGamma + InitFinish

  const InitGamma: seq<Event> :=
    [Cmd(GMCTRP1)] + DataEvents(GammaPositive) + [Cmd(GMCTRN1)] + DataEvents(GammaNegative)

  /** tft_draw_pixel: the offsets are added to the `uint8_t` coordinates. */
  function PixelEvents(x: u8, y: u8, color: u16): seq<Event>
  {
    var px, py := U8(x + XOffset), U8(y + YOffset);
    WindowEvents8(px, py, px, py) + [Data16(color)]
  }

  /** One tft_draw_pixel per point, each `int16_t` coordinate passed as a `uint8_t`. */
  function PixelsEvents(pts: seq<Point>, color: u16): seq<Event>
  {
    if pts == [] then []
    else PixelEvents(U8(pts[0].x), U8(pts[0].y), color) + PixelsEvents(pts[1..], color)
  }

  /** The window tft_fill_rect and tft_draw_bitmap open: every corner is a `uint8_t`. */
  function AreaEvents(x: u8, y: u8, w: u8, h: u8): seq<Event>
  {
    var px, py := U8(x + XOffset), U8(y + YOffset);
    WindowEvents8(px, py, U8(px + w - 1), U8(py + h - 1))
  }

  /** tft_fill_rect: one row of w pixels staged once and sent h times. */
  function FillEvents(x: u8, y: u8, w: u8, h: u8, color: u16): seq<Event>
  {
    AreaEvents(x, y, w, h) + [Block(Pack(Solid(color, w)), h)]
  }

  /** tft_draw_bitmap: the first `(w * h) << 1` bytes of the bitmap, as a `uint16_t`. */
  function BitmapEvents(x: u8, y: u8, w: u8, h: u8, bitmap: seq<u8>): seq<Event>
    requires BitmapBytes(w, h) <= |bitmap|
  {
    AreaEvents(x, y, w, h) + [Block(bitmap[..BitmapBytes(w, h)], 1)]
  }

  /** _tft_draw_fast_v_line: the offsets are added in `int16_t`, the window
      corners are passed as `uint8_t`. */
  function VLineEvents(x: int, y: int, h: int, color: u16): seq<Event>
  {
    var px, py := I16(x + XOffset), I16(y + YOffset);
    WindowEvents8(U8(px), U8(py), U8(px), U8(py + h - 1)) + [Block(Pack(Solid(color, Count(h))), 1)]
  }

  /** _tft_draw_fast_h_line. */
  function HLineEvents(x: int, y: int, w: int, color: u16): seq<Event>
  {
    var px, py := I16(x + XOffset), I16(y + YOffset);
    WindowEvents8(U8(px), U8(py), U8(px + w - 1), U8(py)) + [Block(Pack(Solid(color, Count(w))), 1)]
  }

  /** tft_draw_rect: top and bottom edges, then left and right edges. Every
      `uint8_t` argument and `y + h - 1`, `x + w - 1` fit an `int16_t`. */
  function RectEvents(x: u8, y: u8, w: u8, h: u8, color: u16): seq<Event>
  {
    HLineEvents(x, y, w, color) + HLineEvents(x, y + h - 1, w, color)
    + VLineEvents(x, y, h, color) + VLineEvents(x + w - 1, y, h, color)
  }

  /** The window tft_print_char opens, as the driver computes it: the last row
      is derived from the cursor's column, `_cursor_x + 6`. */
  function GlyphWindow(cx: u8, cy: u8): seq<Event>
  {
    WindowEvents8(cx, cy, U8(cx + FontWidth - 1), U8(cx + FontHeight - 1))
  }

  /** The window the glyph needs: five columns and seven rows from the cursor. */
  function IntendedGlyphWindow(cx: u8, cy: u8): seq<Event>
  {
    WindowEvents8(cx, cy, U8(cx + FontWidth - 1), U8(cy + FontHeight - 1))
  }

  /** tft_print_char at cursor (cx, cy): the window, then one write_data_16 per
      glyph pixel, row by row. */
  function GlyphEvents(font: Font, c: u8, cx: u8, cy: u8, fg: u16, bg: u16): seq<Event>
  {
    GlyphWindow(cx, cy) + Data16Stream(GlyphColors(font, c, fg, bg))
  }

  /** tft_print: one glyph per character, the `uint8_t` cursor advancing six
      columns each time, so that the glyph of character k sits 6 * k columns
      right of the start, modulo 256. */
  function TextEvents(font: Font, text: seq<u8>, cx: u8, cy: u8, fg: u16, bg: u16): seq<Event>
  {
    Glyphs(font, Layout(text, cx), cy, fg, bg)
  }

  /** A character of a text and the cursor column its glyph is printed at. */
  datatype Placed = Placed(code: u8, column: u8)

  /** The cursor column after n characters: each adds the glyph width plus one
      column of spacing, in `uint8_t`. */
  function CursorAfter(cx: u8, n: nat): u8
  {
    if n == 0 then cx else U8(CursorAfter(cx, n - 1) + FontWidth + 1)
  }

  /** Each character of a text at the column the cursor has reached when it is printed. */
  function Layout(text: seq<u8>, cx: u8): (r: seq<Placed>)
    ensures |r| == |text|
  {
    seq(|text|, k requires 0 <= k < |text| => Placed(text[k], CursorAfter(cx, k)))
  }

  /** The glyphs of placed characters, one after the other. */
  function Glyphs(font: Font, placed: seq<Placed>, cy: u8, fg: u16, bg: u16): seq<Event>
  {
    if placed == [] then []
    else
      var n := |placed| - 1;
      Glyphs(font, placed[..n], cy, fg, bg) + GlyphEvents(font, placed[n].code, placed[n].column, cy, fg, bg)
  }



  // ------------------------------------------------------------ driver

  class Driver {
    /** Text cursor, in controller coordinates, as `uint8_t`. */
    var cursorX: u8
    var cursorY: u8
    /** Text foreground and background colours. */
    var color: u16
    var bgColor: u16
    /** Everything sent to the panel so far. */
    var trace: seq<Event>
    /** `buffer`: DMA staging buffer holding one row of pixels. */
    const buffer: array<u8>
    /** The static digit buffer of tft_print_number. */
    const digits: DigitBuffer
    /** The 5x7 font table. */
    const font: Font

    ghost predicate Valid()
    {
      buffer.Length == RowBufferBytes && digits.Valid() && buffer != digits.cells
    }

    /** The globals' initial values: cursor at 0, black on white, zeroed buffers. */
    constructor (font: Font)
      ensures Valid() && fresh(buffer) && fresh(digits) && fresh(digits.cells) && this.font == font
      ensures cursorX == 0 && cursorY == 0 && color == BLACK && bgColor == WHITE
      ensures buffer[..] == seq(RowBufferBytes, _ => 0) && trace == []
    {
      cursorX, cursorY := 0, 0;
      color, bgColor := BLACK, WHITE;
      trace := [];
      buffer := new u8[RowBufferBytes](_ => 0);
      digits := new DigitBuffer();
      this.font := font;
    }

    // -------------------------------------------------------- transport

    /** write_command_8: DC low and the opcode, within one chip select. */
    method WriteCommand8(cmd: u8)
      modifies this`trace
      ensures trace == old(trace) + [Cmd(cmd)]
    {
      trace := trace + [Cmd(cmd)];
    }

    /** write_data_8: DC high and the byte, within one chip select. */
    method WriteData8(data: u8)
      modifies this`trace
      ensures trace == old(trace) + [Data(data)]
    {
      trace := trace + [Data(data)];
    }

    /** write_data_16: DC high, then `data >> 8` and `(uint8_t)data`. */
    method WriteData16(data: u16)
      modifies this`trace
      ensures trace == old(trace) + [Data16(data)]
    {
      trace := trace + [Data16(data)];
    }

    /** SEND_DATA() and SPI_send_DMA: the first `size` bytes of `source`, `repeat` times over. */
    method SendDMA(source: seq<u8>, size: u16, repeat: u16)
      requires size <= |source|
      modifies this`trace
      ensures trace == old(trace) + [Block(source[..size], repeat)]
    {
      trace := trace + [Block(source[..size], repeat)];
    }

    /** Half of tft_set_window: CASET or RASET, then `a >> 8`, `a & 0xFF`,
        `b >> 8`, `b & 0xFF`, each by write_data_8. */
    method SendRange(cmd: u8, a: u8, b: u8)
      modifies this`trace
      ensures trace == old(trace) + [Cmd(cmd), Data(Hi(a)), Data(Lo(a)), Data(Hi(b)), Data(Lo(b))]
    {
      WriteCommand8(cmd);
      WriteData8(a / 0x100);
      WriteData8(a % 0x100);
      WriteData8(b / 0x100);
      WriteData8(b % 0x100);
    }

    /** tft_set_window with `uint8_t` corners. */
    method SetWindow(x0: u8, y0: u8, x1: u8, y1: u8)
      modifies this`trace
      ensures trace == old(trace) + WindowEvents8(x0, y0, x1, y1)
    {
      SendRange(CASET, x0, x1);
      SendRange(RASET, y0, y1);
      WriteCommand8(RAMWR);
    }

    /** tft_init after SPI_init: the reset pulse, then the command sequence. */
    method Init()
      modifies this`trace
      ensures trace == old(trace) + InitEvents
    {
      Wake();
      SendGamma();
      SwitchOn();
      AppendAssoc(old(trace), InitSetup, InitGamma);
      AppendAssoc(old(trace), InitSetup + InitGamma, InitFinish);
    }

    /** The reset pulse, sleep out, the rotation and the pixel format. */
    method Wake()
      modifies this`trace
      ensures trace == old(trace) + InitSetup
    {
      trace := trace + [Reset];
      WriteCommand8(SLPOUT);
      WriteCommand8(MADCTL);
      WriteData8(Rotation0);
      WriteCommand8(COLMOD);
      WriteData8(COLMOD_16BPP);
    }

    /** Both gamma tables, one write_data_8 per parameter. */
    method SendGamma()
      modifies this`trace
      ensures trace == old(trace) + InitGamma
    {
      WriteCommand8(GMCTRP1);
      WriteTable(GammaPositive);
      WriteCommand8(GMCTRN1);
      WriteTable(GammaNegative);
      AppendAssoc(old(trace), [Cmd(GMCTRP1)], DataEvents(GammaPositive));
      AppendAssoc(old(trace), [Cmd(GMCTRP1)] + DataEvents(GammaPositive), [Cmd(GMCTRN1)]);
      AppendAssoc(old(trace), [Cmd(GMCTRP1)] + DataEvents(GammaPositive) + [Cmd(GMCTRN1)],
                  DataEvents(GammaNegative));
    }

    /** The sixteen write_data_8 calls that follow a gamma command, in table order. */
    method WriteTable(table: seq<u8>)
      modifies this`trace
      ensures trace == old(trace) + DataEvents(table)
    {
      var i := 0;
      assert table[..0] == [];
      while i < |table|
        invariant 0 <= i <= |table|
        invariant trace == old(trace) + DataEvents(table[..i])
      {
        WriteData8(table[i]);
        DataEventsSnoc(table[..i], table[i]);
        assert table[..i] + [table[i]] == table[..i + 1];
        i := i + 1;
      }
      assert table[..i] == table;
    }

    /** Inversion on, normal display mode, display on. */
    method SwitchOn()
      modifies this`trace
      ensures trace == old(trace) + InitFinish
    {
      WriteCommand8(INVON);
      WriteCommand8(NORON);
      WriteCommand8(DISPON);
    }

    // ------------------------------------------------------ text state

    /** tft_set_cursor: the offsets are added in `uint8_t`, so they wrap modulo 256. */
    method SetCursor(x: u8, y: u8)
      modifies this`cursorX, this`cursorY
      ensures cursorX == U8(x + XOffset) && cursorY == U8(y + YOffset)
    {
      cursorX := U8(x + XOffset);
      cursorY := U8(y + YOffset);
    }

    method SetColor(c: u16)
      modifies this`color
      ensures color == c
    {
      color := c;
    }

    method SetBackgroundColor(c: u16)
      modifies this`bgColor
      ensures bgColor == c
    {
      bgColor := c;
    }

    // ------------------------------------------------------------ text

    /** tft_print_char: the window, then each of the 35 pixels, row by row,
        as one write_data_16 of the foreground or the background colour. */
    method PrintChar(c: u8)
      modifies this`trace
      ensures trace == old(trace) + GlyphEvents(font, c, cursorX, cursorY, color, bgColor)
    {
      SetWindow(cursorX, cursorY, U8(cursorX + FontWidth - 1), U8(cursorX + FontHeight - 1));
      ghost var t0 := trace;
      ghost var colors := GlyphColors(font, c, color, bgColor);
      assert colors[..0] == [];
      var i := 0;
      while i < FontHeight
        invariant 0 <= i <= FontHeight
        invariant trace == t0 + Data16Stream(colors[..5 * i])
      {
        var j := 0;
        while j < FontWidth
          invariant 0 <= j <= FontWidth
          invariant trace == t0 + Data16Stream(colors[..5 * i + j])
        {
          if GlyphBit(font, c, i, j) {
            WriteData16(color);
          } else {
            WriteData16(bgColor);
          }
          PixelStep(t0, trace, font, c, color, bgColor, i, j);
          j := j + 1;
        }
        i := i + 1;
      }
      assert colors[..5 * i] == colors;
      AppendAssoc(old(trace), GlyphWindow(cursorX, cursorY), Data16Stream(colors));
    }

    /** tft_print: every character of the NUL-terminated string, the cursor
        advancing six columns each time, modulo 256. */
    method Print(str: seq<u8>)
      requires 0 in str
      modifies this`trace, this`cursorX
      ensures var text := CString(str);
              && trace == old(trace) + TextEvents(font, text, old(cursorX), cursorY, color, bgColor)
              && cursorX == U8(old(cursorX) + 6 * |text|)
    {
      ghost var text := CString(str);
      var i := 0;
      while str[i] != 0
        invariant 0 <= i <= |text|
        invariant trace == old(trace) + TextEvents(font, text[..i], old(cursorX), cursorY, color, bgColor)
        invariant cursorX == CursorAfter(old(cursorX), i)
        decreases |text| - i
      {
        assert str[i] == text[i];
        PrintChar(str[i]);
        PrintStep(old(trace), trace, font, text, i, old(cursorX), cursorX, cursorY, color, bgColor);
        cursorX := U8(cursorX + FontWidth + 1);
        i := i + 1;
      }
      assert text[..i] == text;
      CursorAfterIs(old(cursorX), i);
    }

    /** tft_print_number: the text of `num` right-aligned in eleven characters,
        the cells in front of it filled with spaces, then printed. */
    method PrintNumber(num: int)
      requires Valid() && Int32Min < num <= Int32Max
      modifies this`trace, this`cursorX, digits.cells
      ensures trace == old(trace) + TextEvents(font, PaddedNumberText(num), old(cursorX), cursorY, color, bgColor)
      ensures cursorX == U8(old(cursorX) + 66)
      ensures digits.cells[..] == PaddedNumberText(num) + [0]
    {
      var str := PadNumber(num);
      ghost var text, t0, cx0 := PaddedNumberText(num), trace, cursorX;
      assert CString(str) == text && |text| == 11;
      assert t0 == old(trace) && cx0 == old(cursorX);
      Print(str);
      assert trace == t0 + TextEvents(font, text, cx0, cursorY, color, bgColor);
      assert digits.cells[..] == str;
    }

    /** The first half of tft_print_number: the digit loop, then the padding loop. */
    method PadNumber(num: int) returns (str: seq<u8>)
      requires Valid() && Int32Min < num <= Int32Max
      modifies digits.cells
      ensures str == digits.cells[..] == PaddedNumberText(num) + [0]
      ensures 0 in str && CString(str) == PaddedNumberText(num)
    {
      var position := digits.Format(num);
      digits.Pad(position, NumberText(num));
      str := digits.cells[..];
      CStringOfTerminated(PaddedNumberText(num), []);
      assert str == PaddedNumberText(num) + [0] + [];
    }

    // --------------------------------------------------------- drawing

    /** The staging loop of the fills and fast lines: `n` pixels of one colour,
        high byte first, at the start of the buffer. */
    method StageColor(c: u16, n: int) returns (sz: u16)
      requires Valid() && 2 * n <= RowBufferBytes
      modifies buffer
      ensures sz == 2 * Count(n)
      ensures buffer[..] == Staged(old(buffer[..]), Pack(Solid(c, Count(n))))
    {
      ghost var row := Pack(Solid(c, Count(n)));
      sz := 0;
      var j := 0;
      while j < n
        invariant 0 <= j <= Count(n) && sz == 2 * j
        invariant forall k :: 0 <= k < sz ==> buffer[k] == row[k]
        invariant forall k :: sz <= k < buffer.Length ==> buffer[k] == old(buffer[k])
      {
        buffer[sz] := c / 0x100;
        buffer[sz + 1] := c % 0x100;
        sz := sz + 2;
        j := j + 1;
      }
      assert buffer[..] == Staged(old(buffer[..]), row);
    }

    /** tft_draw_pixel. */
    method DrawPixel(x: u8, y: u8, c: u16)
      modifies this`trace
      ensures trace == old(trace) + PixelEvents(x, y, c)
    {
      var px, py := U8(x + XOffset), U8(y + YOffset);
      SetWindow(px, py, px, py);
      WriteData16(c);
    }

    /** tft_fill_rect: the window, then one row staged and sent `h` times.
        The row must fit the buffer. */
    method FillRect(x: u8, y: u8, w: u8, h: u8, c: u16)
      requires Valid() && 2 * w <= RowBufferBytes
      modifies this`trace, buffer
      ensures trace == old(trace) + FillEvents(x, y, w, h, c)
      ensures buffer[..] == Staged(old(buffer[..]), Pack(Solid(c, w)))
    {
      var px, py := U8(x + XOffset), U8(y + YOffset);
      SetWindow(px, py, U8(px + w - 1), U8(py + h - 1));
      var sz := StageColor(c, w);
      SendDMA(buffer[..], 2 * w, h);
      assert buffer[..][..sz] == Pack(Solid(c, w));
    }

    /** tft_draw_bitmap: the bitmap is sent straight from the caller's memory. */
    method DrawBitmap(x: u8, y: u8, w: u8, h: u8, bitmap: seq<u8>)
      requires BitmapBytes(w, h) <= |bitmap|
      modifies this`trace
      ensures trace == old(trace) + BitmapEvents(x, y, w, h, bitmap)
    {
      var px, py := U8(x + XOffset), U8(y + YOffset);
      SetWindow(px, py, U8(px + w - 1), U8(py + h - 1));
      SendDMA(bitmap, BitmapBytes(w, h), 1);
    }

    /** _tft_draw_fast_v_line on `int16_t` arguments. The column must fit the
        buffer, and `h << 1` is taken for a length that is not negative. */
    method DrawFastVLine(x: int, y: int, h: int, c: u16)
      requires Valid() && IsI16(x) && IsI16(y) && 0 <= h && 2 * h <= RowBufferBytes
      modifies this`trace, buffer
      ensures trace == old(trace) + VLineEvents(x, y, h, c)
      ensures buffer[..] == Staged(old(buffer[..]), Pack(Solid(c, h)))
    {
      var px, py := I16(x + XOffset), I16(y + YOffset);
      SetWindow(U8(px), U8(py), U8(px), U8(py + h - 1));
      var sz := StageColor(c, h);
      ghost var t0 := trace;
      SendDMA(buffer[..], 2 * h, 1);
      assert buffer[..][..sz] == Pack(Solid(c, h));
    }

    /** _tft_draw_fast_h_line. */
    method DrawFastHLine(x: int, y: int, w: int, c: u16)
      requires Valid() && IsI16(x) && IsI16(y) && 0 <= w && 2 * w <= RowBufferBytes
      modifies this`trace, buffer
      ensures trace == old(trace) + HLineEvents(x, y, w, c)
      ensures buffer[..] == Staged(old(buffer[..]), Pack(Solid(c, w)))
    {
      var px, py := I16(x + XOffset), I16(y + YOffset);
      SetWindow(U8(px), U8(py), U8(px + w - 1), U8(py));
      var sz := StageColor(c, w);
      SendDMA(buffer[..], 2 * w, 1);
      assert buffer[..][..sz] == Pack(Solid(c, w));
    }

    /** _tft_draw_line: one tft_draw_pixel per point of the line. Coordinates
        are kept small enough that no `int16_t` step wraps. */
    method DrawLineBresenham(x0: int, y0: int, x1: int, y1: int, c: u16)
      requires NoWrap(x0) && NoWrap(y0) && NoWrap(x1) && NoWrap(y1)
      modifies this`trace
      ensures trace == old(trace) + PixelsEvents(LinePoints(x0, y0, x1, y1), c)
    {
      var steep := Diff(y1, y0) > Diff(x1, x0);
      var a0, b0, a1, b1 := x0, y0, x1, y1;
      if steep {
        a0, b0 := b0, a0;
        a1, b1 := b1, a1;
      }
      if a0 > a1 {
        a0, a1 := a1, a0;
        b0, b1 := b1, b0;
      }
      var dx := a1 - a0;
      var dy := Diff(b1, b0);
      var err := dx / 2;
      var step := if b0 < b1 then 1 else -1;
      ghost var total := old(trace) + PixelsEvents(LinePoints(x0, y0, x1, y1), c);
      assert (a0, b0, a1, b1) == Normalise(x0, y0, x1, y1);
      LinePointsFrom(x0, y0, x1, y1, a0, b0, a1, b1, err, dx, dy, step, steep);
      while a0 <= a1
        invariant a0 <= a1 + 1
        invariant total == trace + PixelsEvents(Run(a0, a1, b0, err, dx, dy, step, steep), c)
        decreases a1 + 1 - a0
      {
        ghost var t0, a, b, e := trace, a0, b0, err;
        if steep {
          DrawPixel(U8(b0), U8(a0), c);
        } else {
          DrawPixel(U8(a0), U8(b0), c);
        }
        err := err - dy;
        if err < 0 {
          err := err + dx;
          b0 := b0 + step;
        }
        a0 := a0 + 1;
        LineStep(total, t0, trace, a, a1, b, e, dx, dy, step, steep, c, a0, b0, err);
      }
    }

    /** tft_draw_rect: two horizontal and two vertical fast lines. Each side
        must fit the buffer. */
    method DrawRect(x: u8, y: u8, w: u8, h: u8, c: u16)
      requires Valid() && 2 * w <= RowBufferBytes && 2 * h <= RowBufferBytes
      modifies this`trace, buffer
      ensures trace == old(trace) + RectEvents(x, y, w, h, c)
      ensures buffer[..] == Staged(Staged(old(buffer[..]), Pack(Solid(c, w))), Pack(Solid(c, h)))
    {
      ghost var t0, b0 := trace, buffer[..];
      DrawFastHLine(x, y, w, c);
      DrawFastHLine(x, y + h - 1, w, c);
      ghost var b2 := buffer[..];
      DrawFastVLine(x, y, h, c);
      DrawFastVLine(x + w - 1, y, h, c);
      StagedTwice(b0, Pack(Solid(c, w)), Pack(Solid(c, w)));
      StagedTwice(b2, Pack(Solid(c, h)), Pack(Solid(c, h)));
      AppendFour(t0, HLineEvents(x, y, w, c), HLineEvents(x, y + h - 1, w, c),
                 VLineEvents(x, y, h, c), VLineEvents(x + w - 1, y, h, c));
    }

    /** tft_draw_line: vertical and horizontal lines go through the fast paths
        with the endpoints ordered; everything else through Bresenham. */
    method DrawLine(x0: int, y0: int, x1: int, y1: int, c: u16)
      requires Valid() && IsI16(x0) && IsI16(y0) && IsI16(x1) && IsI16(y1)
      requires LineFitsBuffer(x0, y0, x1, y1)
      requires x0 != x1 && y0 != y1 ==> NoWrap(x0) && NoWrap(y0) && NoWrap(x1) && NoWrap(y1)
      modifies this`trace, buffer
      ensures x0 == x1 ==>
                && trace == old(trace) + VLineEvents(x0, Min(y0, y1), I16(Diff(y1, y0) + 1), c)
                && buffer[..] == Staged(old(buffer[..]), Pack(Solid(c, I16(Diff(y1, y0) + 1))))
      ensures x0 != x1 && y0 == y1 ==>
                && trace == old(trace) + HLineEvents(Min(x0, x1), y0, I16(Diff(x1, x0) + 1), c)
                && buffer[..] == Staged(old(buffer[..]), Pack(Solid(c, I16(Diff(x1, x0) + 1))))
      ensures x0 != x1 && y0 != y1 ==>
                && trace == old(trace) + PixelsEvents(LinePoints(x0, y0, x1, y1), c)
                && buffer[..] == old(buffer[..])
    {
      if x0 == x1 {
        var a, b := y0, y1;
        if a > b {
          a, b := b, a;
        }
        assert a == Min(y0, y1) && b - a == Diff(y1, y0);
        DrawFastVLine(x0, a, I16(b - a + 1), c);
      } else if y0 == y1 {
        var a, b := x0, x1;
        if a > b {
          a, b := b, a;
        }
        assert a == Min(x0, x1) && b - a == Diff(x1, x0);
        DrawFastHLine(a, y0, I16(b - a + 1), c);
      } else {
        DrawLineBresenham(x0, y0, x1, y1, c);
      }
    }
  }

  /** A vertical or horizontal line stages a length that is not negative and
      at most one row buffer of pixels. */
  predicate LineFitsBuffer(x0: int, y0: int, x1: int, y1: int)
  {
    && (x0 == x1 ==> 0 <= I16(Diff(y1, y0) + 1) && 2 * I16(Diff(y1, y0) + 1) <= RowBufferBytes)
    && (x0 != x1 && y0 == y1 ==> 0 <= I16(Diff(x1, x0) + 1) && 2 * I16(Diff(x1, x0) + 1) <= RowBufferBytes)
  }

  /** Coordinates for which no `int16_t` arithmetic of the line algorithm wraps. */
  predicate NoWrap(v: int)
  {
    -0x4000 <= v < 0x4000
  }

  function Min(a: int, b: int): int
  {
    if a < b then a else b
  }

  // ------------------------------------------------------------ lemmas

  /** One more pixel of the glyph stream. */
  lemma StreamStep(t0: seq<Event>, t: seq<Event>, colors: seq<u16>, k: nat)
    requires k < |colors|
    requires t == t0 + Data16Stream(colors[..k]) + [Data16(colors[k])]
    ensures t == t0 + Data16Stream(colors[..k + 1])
  {
    assert colors[..k] + [colors[k]] == colors[..k + 1];
    Data16StreamSnoc(colors[..k], colors[k]);
    AppendAssoc(t0, Data16Stream(colors[..k]), [Data16(colors[k])]);
  }

  /** One pixel of tft_print_char's loops: the colour of pixel (row, col) extends the glyph's stream. */
  lemma PixelStep(t0: seq<Event>, t: seq<Event>, font: Font, c: u8, fg: u16, bg: u16, row: nat, col: nat)
    requires row < FontHeight && col < FontWidth
    requires t == t0 + Data16Stream(GlyphColors(font, c, fg, bg)[..5 * row + col])
                 + [Data16(if GlyphBit(font, c, row, col) then fg else bg)]
    ensures t == t0 + Data16Stream(GlyphColors(font, c, fg, bg)[..5 * row + col + 1])
  {
    GlyphPixel(font, c, fg, bg, row, col);
    StreamStep(t0, t, GlyphColors(font, c, fg, bg), 5 * row + col);
  }

  /** One iteration of tft_print: the glyph printed at the advanced cursor extends the text trace. */
  lemma PrintStep(t0: seq<Event>, t: seq<Event>, font: Font, text: seq<u8>, i: nat,
                  cx0: u8, cx: u8, cy: u8, fg: u16, bg: u16)
    requires i < |text|
    requires cx == CursorAfter(cx0, i)
    requires t == t0 + TextEvents(font, text[..i], cx0, cy, fg, bg) + GlyphEvents(font, text[i], cx, cy, fg, bg)
    ensures t == t0 + TextEvents(font, text[..i + 1], cx0, cy, fg, bg)
  {
    assert text[..i] + [text[i]] == text[..i + 1];
    TextSnoc(font, text[..i], text[i], cx0, cy, fg, bg);
    AppendAssoc(t0, TextEvents(font, text[..i], cx0, cy, fg, bg), GlyphEvents(font, text[i], cx, cy, fg, bg));
  }


  /** Printing one more character appends its glyph at the cursor reached
      after the earlier ones. */
  lemma TextSnoc(font: Font, text: seq<u8>, c: u8, cx: u8, cy: u8, fg: u16, bg: u16)
    ensures TextEvents(font, text + [c], cx, cy, fg, bg)
            == TextEvents(font, text, cx, cy, fg, bg) + GlyphEvents(font, c, CursorAfter(cx, |text|), cy, fg, bg)
  {
    var placed := Layout(text + [c], cx);
    assert placed[..|text|] == Layout(text, cx);
    assert placed[|text|] == Placed(c, CursorAfter(cx, |text|));
  }

  /** The cursor after n characters is 6 * n columns further right, in `uint8_t`. */
  lemma {:induction false} CursorAfterIs(cx: u8, n: nat)
    ensures CursorAfter(cx, n) == U8(cx + 6 * n)
  {
    if n > 0 {
      CursorAfterIs(cx, n - 1);
      U8Step(cx + 6 * (n - 1), 6);
    }
  }

  /** m characters and then n more leave the cursor where m + n characters do. */
  lemma {:induction false} CursorAfterAdd(cx: u8, m: nat, n: nat)
    ensures CursorAfter(CursorAfter(cx, m), n) == CursorAfter(cx, m + n)
  {
    if n > 0 {
      CursorAfterAdd(cx, m, n - 1);
    }
  }

  /** The layout of a + b: b's characters start at the cursor reached after a. */
  lemma LayoutAppend(a: seq<u8>, b: seq<u8>, cx: u8)
    ensures Layout(a + b, cx) == Layout(a, cx) + Layout(b, CursorAfter(cx, |a|))
  {
    var l, r := Layout(a + b, cx), Layout(a, cx) + Layout(b, CursorAfter(cx, |a|));
    forall k | 0 <= k < |l| ensures l[k] == r[k] {
      if k >= |a| {
        CursorAfterAdd(cx, |a|, k - |a|);
      }
    }
  }

  /** The glyphs of placed characters split at any point. */
  lemma {:induction false} GlyphsAppend(font: Font, p: seq<Placed>, q: seq<Placed>, cy: u8, fg: u16, bg: u16)
    ensures Glyphs(font, p + q, cy, fg, bg) == Glyphs(font, p, cy, fg, bg) + Glyphs(font, q, cy, fg, bg)
  {
    if q == [] {
      assert p + q == p;
    } else {
      var m := |q| - 1;
      var g := GlyphEvents(font, q[m].code, q[m].column, cy, fg, bg);
      assert |p + q| - 1 == |p| + m;
      assert (p + q)[..|p| + m] == p + q[..m] && (p + q)[|p| + m] == q[m];
      assert Glyphs(font, p + q, cy, fg, bg) == Glyphs(font, p + q[..m], cy, fg, bg) + g;
      GlyphsAppend(font, p, q[..m], cy, fg, bg);
      AppendAssoc(Glyphs(font, p, cy, fg, bg), Glyphs(font, q[..m], cy, fg, bg), g);
    }
  }

  /** Printing a then b sends what printing a + b sends: b starts at the cursor
      reached after a. */
  lemma TextEventsAppend(font: Font, a: seq<u8>, b: seq<u8>, cx: u8, cy: u8, fg: u16, bg: u16)
    ensures TextEvents(font, a + b, cx, cy, fg, bg)
            == TextEvents(font, a, cx, cy, fg, bg)
               + TextEvents(font, b, CursorAfter(cx, |a|), cy, fg, bg)
  {
    LayoutAppend(a, b, cx);
    GlyphsAppend(font, Layout(a, cx), Layout(b, CursorAfter(cx, |a|)), cy, fg, bg);
  }

  /** One turn of the line loop: the pixel just drawn is the first point of
      the remaining run, and the run continues from the updated error term. */
  lemma LineStep(total: seq<Event>, t0: seq<Event>, t: seq<Event>, x: int, x1: int, y: int,
                 err: int, dx: int, dy: int, step: int, steep: bool, c: u16,
                 x': int, y': int, err': int)
    requires x <= x1 && x' == x + 1
    requires total == t0 + PixelsEvents(Run(x, x1, y, err, dx, dy, step, steep), c)
    requires t == t0 + (if steep then PixelEvents(U8(y), U8(x), c) else PixelEvents(U8(x), U8(y), c))
    requires y' == (if err - dy < 0 then y + step else y)
    requires err' == (if err - dy < 0 then err - dy + dx else err - dy)
    ensures total == t + PixelsEvents(Run(x', x1, y', err', dx, dy, step, steep), c)
  {
    var rest := Run(x, x1, y, err, dx, dy, step, steep);
    var p := Orient(x, y, steep);
    var pixel := PixelEvents(U8(p.x), U8(p.y), c);
    assert rest == [p] + Run(x + 1, x1, y', err', dx, dy, step, steep);
    assert rest[0] == p && rest[1..] == Run(x + 1, x1, y', err', dx, dy, step, steep);
    assert PixelsEvents(rest, c) == pixel + PixelsEvents(rest[1..], c);
    AppendAssoc(t0, pixel, PixelsEvents(rest[1..], c));
  }

  // ------------------------------------------------------------ properties

  /** The window of a w x h area at (x, y) runs from (x + 1, y + 26) to
      (x + w, y + h + 25), all in `uint8_t`. */
  lemma AreaCorners(x: u8, y: u8, w: u8, h: u8)
    ensures AreaEvents(x, y, w, h) == WindowEvents8(U8(x + 1), U8(y + 26), U8(x + w), U8(y + h + 25))
  {
    U8Step(x + 1, w - 1);
    U8Step(y + 26, h - 1);
  }

  /** tft_fill_rect puts on the wire the 11 bytes of its window and then exactly
      w * h pixels of the colour: the row staged once, replayed h times. */
  lemma FillCovers(x: u8, y: u8, w: u8, h: u8, color: u16)
    ensures Flatten(FillEvents(x, y, w, h, color))
            == WindowWire(Window(U8(x + 1), U8(y + 26), U8(x + w), U8(y + h + 25)))
               + DataBytes(Pack(Solid(color, w * h)))
  {
    var window := AreaEvents(x, y, w, h);
    AreaCorners(x, y, w, h);
    FlattenAppend(window, [Block(Pack(Solid(color, w)), h)]);
    Window8Wire(U8(x + 1), U8(y + 26), U8(x + w), U8(y + h + 25));
    FlattenBlock(Pack(Solid(color, w)), h);
    RepeatSolid(color, w, h);
  }

  /** A fast horizontal line of `uint8_t` arguments is a filled rectangle one row high. */
  lemma HLineIsFill(x: u8, y: u8, w: u8, color: u16)
    ensures HLineEvents(x, y, w, color) == FillEvents(x, y, w, 1, color)
  {
    assert I16(x + XOffset) == x + 1 && I16(y + YOffset) == y + 26;
    U8Step(x + 1, w - 1);
    U8Step(y + 26, 0);
  }

  /** A fast vertical line of `uint8_t` arguments puts on the wire what a filled
      rectangle one column wide does: h pixels in one block rather than one pixel
      replayed h times. */
  lemma VLineIsFill(x: u8, y: u8, h: u8, color: u16)
    ensures Flatten(VLineEvents(x, y, h, color)) == Flatten(FillEvents(x, y, 1, h, color))
  {
    assert I16(x + XOffset) == x + 1 && I16(y + YOffset) == y + 26;
    U8Step(x + 1, 0);
    U8Step(y + 26, h - 1);
    var window := AreaEvents(x, y, 1, h);
    assert VLineEvents(x, y, h, color) == window + [Block(Pack(Solid(color, h)), 1)];
    FlattenAppend(window, [Block(Pack(Solid(color, h)), 1)]);
    FlattenAppend(window, [Block(Pack(Solid(color, 1)), h)]);
    FlattenBlock(Pack(Solid(color, h)), 1);
    FlattenBlock(Pack(Solid(color, 1)), h);
    RepeatSolid(color, 1, h);
    RepeatSolid(color, h, 1);
  }

  /** tft_draw_rect puts on the wire the outline as four filled rectangles one
      pixel thick, as long as the far edges are still `uint8_t` coordinates. */
  lemma RectIsFourEdges(x: u8, y: u8, w: u8, h: u8, color: u16)
    requires 1 <= w && 1 <= h && x + w <= 0x100 && y + h <= 0x100
    ensures Flatten(RectEvents(x, y, w, h, color))
            == Flatten(FillEvents(x, y, w, 1, color)) + Flatten(FillEvents(x, y + h - 1, w, 1, color))
               + Flatten(FillEvents(x, y, 1, h, color)) + Flatten(FillEvents(x + w - 1, y, 1, h, color))
  {
    var top, bottom := HLineEvents(x, y, w, color), HLineEvents(x, y + h - 1, w, color);
    var left, right := VLineEvents(x, y, h, color), VLineEvents(x + w - 1, y, h, color);
    HLineIsFill(x, y, w, color);
    HLineIsFill(x, y + h - 1, w, color);
    VLineIsFill(x, y, h, color);
    VLineIsFill(x + w - 1, y, h, color);
    FlattenAppend(top + bottom + left, right);
    FlattenAppend(top + bottom, left);
    FlattenAppend(top, bottom);
  }

  /** tft_draw_pixel opens the one-pixel window at (x + 1, y + 26), both
      `uint8_t`, and sends the colour, high byte first. */
  lemma PixelCovers(x: u8, y: u8, color: u16)
    ensures var px, py := U8(x + 1), U8(y + 26);
            Flatten(PixelEvents(x, y, color))
            == WindowWire(Window(px, py, px, py)) + [DataByte(color / 0x100), DataByte(color % 0x100)]
  {
    var px, py := U8(x + 1), U8(y + 26);
    FlattenAppend(WindowEvents8(px, py, px, py), [Data16(color)]);
    Window8Wire(px, py, px, py);
    FlattenCons(Data16(color), []);
    assert [Data16(color)] + [] == [Data16(color)];
  }

  // ------------------------------------------------------------ on the panel

  /** The controller cell tft_draw_pixel stores a point at: each coordinate
      passed as a `uint8_t`, then shifted by the panel offsets in `uint8_t`. */
  function Target(p: Point): Point
  {
    Point(U8(U8(p.x) + XOffset), U8(U8(p.y) + YOffset))
  }

  function Targets(pts: seq<Point>): (r: seq<Point>)
    ensures |r| == |pts|
  {
    seq(|pts|, i requires 0 <= i < |pts| => Target(pts[i]))
  }

  /** One tft_draw_pixel per point stores the colour at each point's target
      cell, in order, and changes nothing else. */
  lemma {:induction false} PixelsPaint(s: Controller, pts: seq<Point>, c: u16)
    ensures Apply(s, Flatten(PixelsEvents(pts, c))).frame == Plot(s.frame, Targets(pts), c)
    decreases |pts|
  {
    if pts != [] {
      var p := pts[0];
      var first, rest := PixelEvents(U8(p.x), U8(p.y), c), PixelsEvents(pts[1..], c);
      FlattenAppend(first, rest);
      ApplyAppend(s, Flatten(first), Flatten(rest));
      PixelCovers(U8(p.x), U8(p.y), c);
      PixelPaint(s, U8(U8(p.x) + 1), U8(U8(p.y) + 26), c);
      PixelsPaint(Apply(s, Flatten(first)), pts[1..], c);
      assert Targets(pts)[0] == Target(p) && Targets(pts)[1..] == Targets(pts[1..]);
    }
  }

  /** tft_fill_rect puts on the wire the window of the area filled with the colour. */
  lemma FillWire(x: u8, y: u8, w: u8, h: u8, c: u16)
    requires 1 <= w && 1 <= h && x + w < 0x100 && y + h + 26 <= 0x100
    ensures Flatten(FillEvents(x, y, w, h, c)) == SolidWire(Area(x, y, w, h), c)
  {
    var area := Area(x, y, w, h);
    SmallByte(x + 1); SmallByte(y + 26); SmallByte(x + w); SmallByte(y + h + 25);
    assert Columns(area) == w && Rows(area) == h;
    FillCovers(x, y, w, h, c);
  }

  /** tft_fill_rect on the panel: every cell of the area, shifted by the
      offsets, holds the colour, and every other cell is untouched. */
  lemma FillPaintsArea(s: Controller, x: u8, y: u8, w: u8, h: u8, c: u16, p: Point)
    requires 1 <= w && 1 <= h && x + w < 0x100 && y + h + 26 <= 0x100
    ensures At(Apply(s, Flatten(FillEvents(x, y, w, h, c))).frame, p)
            == if x + 1 <= p.x <= x + w && y + 26 <= p.y <= y + h + 25 then Some(c) else At(s.frame, p)
  {
    FillWire(x, y, w, h, c);
    SolidPaint(s, Area(x, y, w, h), c, p);
  }

  /** The cells of a rectangle, sent one tft_draw_pixel each, land exactly on
      the window tft_fill_rect opens for it. */
  lemma CellsTargets(x: u8, y: u8, w: u8, h: u8, p: Point)
    requires 1 <= w && 1 <= h && x + w < 0x100 && y + h + 26 <= 0x100
    ensures p in Targets(Cells(x, y, w, h)) <==> InWindow(Area(x, y, w, h), p)
  {
    var area, targets := Area(x, y, w, h), Targets(Cells(x, y, w, h));
    assert Columns(area) == w && Rows(area) == h;
    forall k | 0 <= k < w * h
      ensures targets[k] == Cell(area, k)
    {
      CellIndex(area, k);
      SmallByte(x + k % w); SmallByte(x + k % w + 1); SmallByte(y + k / w); SmallByte(y + k / w + 26);
    }
    if p in targets {
      var k :| 0 <= k < |targets| && targets[k] == p;
      CellIndex(area, k);
    }
    if InWindow(area, p) {
      IndexCell(area, p);
      assert targets[Index(area, p)] == p;
    }
  }

  /** tft_fill_rect and one tft_draw_pixel for every cell of the same
      rectangle leave the controller's memory the same. */
  lemma FillEqualsPixels(s: Controller, x: u8, y: u8, w: u8, h: u8, c: u16)
    requires 1 <= w && 1 <= h && x + w < 0x100 && y + h + 26 <= 0x100
    ensures Apply(s, Flatten(FillEvents(x, y, w, h, c))).frame
            == Apply(s, Flatten(PixelsEvents(Cells(x, y, w, h), c))).frame
  {
    var fill := Apply(s, Flatten(FillEvents(x, y, w, h, c))).frame;
    var pixels := Apply(s, Flatten(PixelsEvents(Cells(x, y, w, h), c))).frame;
    PixelsPaint(s, Cells(x, y, w, h), c);
    forall p
      ensures At(fill, p) == At(pixels, p)
    {
      FillWire(x, y, w, h, c);
      SolidPaint(s, Area(x, y, w, h), c, p);
      PlotAt(s.frame, Targets(Cells(x, y, w, h)), c, p);
      CellsTargets(x, y, w, h, p);
    }
    SameFrame(fill, pixels);
  }

  /** tft_draw_rect puts on the wire the outline of the rectangle's area,
      one edge fill at a time. */
  lemma RectWire(x: u8, y: u8, w: u8, h: u8, c: u16)
    requires 1 <= w && 1 <= h && x + w < 0x100 && y + h + 26 <= 0x100
    ensures Flatten(RectEvents(x, y, w, h, c)) == OutlineWire(Area(x, y, w, h), c)
  {
    var o := Area(x, y, w, h);
    var top, bottom := Window(o.x0, o.y0, o.x1, o.y0), Window(o.x0, o.y1, o.x1, o.y1);
    var left, right := Window(o.x0, o.y0, o.x0, o.y1), Window(o.x1, o.y0, o.x1, o.y1);
    var t, b := HLineEvents(x, y, w, c), HLineEvents(x, y + h - 1, w, c);
    var l, r := VLineEvents(x, y, h, c), VLineEvents(x + w - 1, y, h, c);
    RectEdges(x, y, w, h, c);
    HEdgeWire(x, y, w, c, top);
    HEdgeWire(x, y + h - 1, w, c, bottom);
    VEdgeWire(x, y, h, c, left);
    VEdgeWire(x + w - 1, y, h, c, right);
    JoinEdges(Flatten(t), Flatten(b), Flatten(l), Flatten(r),
              SolidWire(top, c), SolidWire(bottom, c), SolidWire(left, c), SolidWire(right, c));
  }

  /** The wire of tft_draw_rect is the wires of its four edges in turn. */
  lemma RectEdges(x: u8, y: u8, w: u8, h: u8, c: u16)
    requires 1 <= w && 1 <= h && x + w <= 0x100 && y + h <= 0x100
    ensures Flatten(RectEvents(x, y, w, h, c))
            == Flatten(HLineEvents(x, y, w, c)) + Flatten(HLineEvents(x, y + h - 1, w, c))
               + Flatten(VLineEvents(x, y, h, c)) + Flatten(VLineEvents(x + w - 1, y, h, c))
  {
    var t, b := HLineEvents(x, y, w, c), HLineEvents(x, y + h - 1, w, c);
    var l, r := VLineEvents(x, y, h, c), VLineEvents(x + w - 1, y, h, c);
    FlattenAppend(t + b + l, r);
    FlattenAppend(t + b, l);
    FlattenAppend(t, b);
  }

  /** A row edge of tft_draw_rect is a fill of the one-row window e. */
  lemma HEdgeWire(x: u8, y: u8, w: u8, c: u16, e: Window)
    requires 1 <= w && x + w < 0x100 && y + 27 <= 0x100
    requires e == Window(x + 1, y + 26, x + w, y + 26)
    ensures Flatten(HLineEvents(x, y, w, c)) == SolidWire(e, c)
  {
    HLineIsFill(x, y, w, c);
    FillWire(x, y, w, 1, c);
  }

  /** A column edge of tft_draw_rect is a fill of the one-column window e. */
  lemma VEdgeWire(x: u8, y: u8, h: u8, c: u16, e: Window)
    requires 1 <= h && x + 1 < 0x100 && y + h + 26 <= 0x100
    requires e == Window(x + 1, y + 26, x + 1, y + h + 25)
    ensures Flatten(VLineEvents(x, y, h, c)) == SolidWire(e, c)
  {
    FillWire(x, y, 1, h, c);
    assert Area(x, y, 1, h) == e;
    VLineIsFill(x, y, h, c);
  }

  /** tft_draw_rect on the panel: the outline of the rectangle, shifted by the
      offsets, holds the colour, its four corners among it, and every other
      cell, the interior included, is untouched. */
  lemma RectBorder(s: Controller, x: u8, y: u8, w: u8, h: u8, c: u16, p: Point)
    requires 1 <= w && 1 <= h && x + w < 0x100 && y + h + 26 <= 0x100
    ensures var frame := Apply(s, Flatten(RectEvents(x, y, w, h, c))).frame;
            && At(frame, p) == (if OnBorder(Area(x, y, w, h), p) then Some(c) else At(s.frame, p))
            && (p.x in {x + 1, x + w} && p.y in {y + 26, y + h + 25} ==> At(frame, p) == Some(c))
            && (x + 1 < p.x < x + w && y + 26 < p.y < y + h + 25 ==> At(frame, p) == At(s.frame, p))
  {
    RectWire(x, y, w, h, c);
    OutlinePaint(s, Area(x, y, w, h), c, p);
  }

  /** tft_print_char as written: at cursor (1, 26), the top-left corner of the
      panel, the controller is given rows 26 to 7, a range that ends before it
      starts, where the glyph needs rows 26 to 32 (IntendedGlyphCovers). */
  lemma GlyphWindowMisplaced()
    ensures ParseWindow(Flatten(GlyphWindow(1, 26))) == Some(Window(1, 26, 5, 7))
  {
    assert GlyphWindow(1, 26) == WindowEvents8(1, 26, 5, 7);
    Window8IsWindow16(1, 26, 5, 7);
    WindowRoundTrip(Window(1, 26, 5, 7));
  }

  /** The window as written is the glyph's own window exactly when the cursor
      sits on the diagonal, cx == cy. */
  lemma GlyphWindowAsIntended(cx: u8, cy: u8)
    ensures GlyphWindow(cx, cy) == IntendedGlyphWindow(cx, cy) <==> cx == cy
  {
    if GlyphWindow(cx, cy) == IntendedGlyphWindow(cx, cy) {
      var a, b := U8(cx + 6), U8(cy + 6);
      assert GlyphWindow(cx, cy)[9] == Data(Lo(a)) && IntendedGlyphWindow(cx, cy)[9] == Data(Lo(b));
      assert a == b;
      U8Add(cx + 6, cy + 6, -6);
    }
  }

  /** tft_print_char with the intended window: five columns and seven rows from
      the cursor, then the glyph's pixels. */
  function IntendedGlyphEvents(font: Font, c: u8, cx: u8, cy: u8, fg: u16, bg: u16): seq<Event>
  {
    IntendedGlyphWindow(cx, cy) + Data16Stream(GlyphColors(font, c, fg, bg))
  }

  /** With the intended window the controller receives a 5 x 7 window at the
      cursor, then the glyph's 35 pixels, each high byte first. */
  lemma IntendedGlyphCovers(font: Font, c: u8, cx: u8, cy: u8, fg: u16, bg: u16)
    requires cx + 4 < 0x100 && cy + 6 < 0x100
    ensures var wire := Flatten(IntendedGlyphEvents(font, c, cx, cy, fg, bg));
            && |wire| == 11 + 70
            && ParseWindow(wire[..11]) == Some(Window(cx, cy, cx + 4, cy + 6))
            && wire[11..] == DataBytes(Pack(GlyphColors(font, c, fg, bg)))
  {
    var window := Window(cx, cy, cx + 4, cy + 6);
    var colors := GlyphColors(font, c, fg, bg);
    var glyph := Pack(colors);
    assert IntendedGlyphEvents(font, c, cx, cy, fg, bg)
           == WindowEvents8(cx, cy, cx + 4, cy + 6) + Data16Stream(colors);
    IntendedWireIsBlock(window, colors);
    WindowThenBlock(window, glyph);
  }

  /** The intended glyph window and its pixel stream put on the wire what the
      16-bit window and one block of the packed pixels do. */
  lemma IntendedWireIsBlock(w: Window, colors: seq<u16>)
    requires w.x0 < 0x100 && w.y0 < 0x100 && w.x1 < 0x100 && w.y1 < 0x100
    ensures Flatten(WindowEvents8(w.x0, w.y0, w.x1, w.y1) + Data16Stream(colors))
            == Flatten(WindowEvents(w) + [Block(Pack(colors), 1)])
  {
    FlattenAppend(WindowEvents8(w.x0, w.y0, w.x1, w.y1), Data16Stream(colors));
    FlattenAppend(WindowEvents(w), [Block(Pack(colors), 1)]);
    Window8IsWindow16(w.x0, w.y0, w.x1, w.y1);
    Data16StreamIsBlock(colors);
  }

  /** tft_print_number prints eleven characters: the spaces, then the digits
      starting six columns per space to the right of the cursor, modulo 256. */
  lemma NumberRightAligned(font: Font, num: int, cx: u8, cy: u8, fg: u16, bg: u16)
    requires Int32Min < num <= Int32Max
    ensures var text := NumberText(num);
            var pad := 11 - |text|;
            TextEvents(font, PaddedNumberText(num), cx, cy, fg, bg)
            == TextEvents(font, Spaces(pad), cx, cy, fg, bg)
               + TextEvents(font, text, U8(cx + 6 * pad), cy, fg, bg)
  {
    var text := NumberText(num);
    var pad := 11 - |text|;
    assert PaddedNumberText(num) == Spaces(pad) + text;
    TextEventsAppend(font, Spaces(pad), text, cx, cy, fg, bg);
    CursorAfterIs(cx, pad);
  }

  /** Whatever the number, the glyph of its last digit is the eleventh one
      printed, sixty columns right of the cursor, modulo 256. */
  lemma NumberLastGlyph(font: Font, num: int, cx: u8, cy: u8, fg: u16, bg: u16)
    requires Int32Min < num <= Int32Max
    ensures var text := NumberText(num);
            TextEvents(font, PaddedNumberText(num), cx, cy, fg, bg)
            == TextEvents(font, PaddedNumberText(num)[..10], cx, cy, fg, bg)
               + GlyphEvents(font, text[|text| - 1], U8(cx + 60), cy, fg, bg)
  {
    var text := NumberText(num);
    var s := PaddedNumberText(num);
    assert s[10] == text[|text| - 1] by {
      assert s == Spaces(11 - |text|) + text;
    }
    ElevenCharacters(font, s, cx, cy, fg, bg);
  }

  /** An eleven-character text ends with the glyph of its last character sixty
      columns right of the start, modulo 256. */
  lemma ElevenCharacters(font: Font, s: seq<u8>, cx: u8, cy: u8, fg: u16, bg: u16)
    requires |s| == 11
    ensures TextEvents(font, s, cx, cy, fg, bg)
            == TextEvents(font, s[..10], cx, cy, fg, bg) + GlyphEvents(font, s[10], U8(cx + 60), cy, fg, bg)
  {
    assert s[..10] + [s[10]] == s;
    TextSnoc(font, s[..10], s[10], cx, cy, fg, bg);
    CursorAfterIs(cx, 10);
  }

}
