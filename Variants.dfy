/** The two drivers side by side: where their arguments fit both coordinate
    types, the DrawTest driver (16-bit window writes, DMA blocks) and the Mario
    driver (8-bit window writes, one write per byte or pixel) put the same
    bytes on the wire. */
module Variants {
  import opened Bits
  import opened Transport
  import opened Protocol
  import opened Panel
  import opened Raster
  import DrawTest = DrawTestDriver
  import Mario = MarioDriver

  /** The gamma tables sent one write_data_8 per byte reach the wire exactly as
      the two DMA blocks do. */
  lemma GammaAgree(pos: seq<u8>, neg: seq<u8>)
    ensures Flatten([Cmd(GMCTRP1)] + DataEvents(pos) + [Cmd(GMCTRN1)] + DataEvents(neg))
            == Flatten([Cmd(GMCTRP1), Block(pos, 1), Cmd(GMCTRN1), Block(neg, 1)])
  {
    var p, n := [Cmd(GMCTRP1)], [Cmd(GMCTRN1)];
    FlattenFour(p, DataEvents(pos), n, DataEvents(neg));
    FlattenFour(p, [Block(pos, 1)], n, [Block(neg, 1)]);
    assert [Cmd(GMCTRP1), Block(pos, 1), Cmd(GMCTRN1), Block(neg, 1)] == p + [Block(pos, 1)] + n + [Block(neg, 1)];
    DataEventsIsBlock(pos);
    DataEventsIsBlock(neg);
  }

  /** Both tft_init sequences put the same bytes on the wire. */
  lemma InitAgree()
    ensures Flatten(Mario.InitEvents) == Flatten(DrawTest.InitEvents)
  {
    GammaAgree(GammaPositive, GammaNegative);
    FlattenAppend(InitSetup + Mario.InitGamma, InitFinish);
    FlattenAppend(InitSetup, Mario.InitGamma);
    FlattenAppend(InitSetup + DrawTest.InitGamma, InitFinish);
    FlattenAppend(InitSetup, DrawTest.InitGamma);
  }

  /** A point whose shifted controller coordinates still fit a `uint8_t`; every
      point of the visible panel is one. */
  predicate FitsByte(p: Point)
  {
    0 <= p.x && p.x + XOffset < 0x100 && 0 <= p.y && p.y + YOffset < 0x100
  }

  lemma PanelFitsByte(p: Point)
    requires 0 <= p.x < Width && 0 <= p.y < Height
    ensures FitsByte(p)
  {
  }

  /** tft_draw_pixel of either driver sends the same bytes for the same pixel. */
  lemma PixelAgree(x: u8, y: u8, color: u16)
    requires x + XOffset < 0x100 && y + YOffset < 0x100
    ensures Flatten(Mario.PixelEvents(x, y, color)) == Flatten(DrawTest.PixelEvents(x, y, color))
  {
    var px, py := x + XOffset, y + YOffset;
    assert U8(px) == px && U16(px) == px && U8(py) == py && U16(py) == py;
    var window8, window16 := WindowEvents8(px, py, px, py), WindowEvents(Window(px, py, px, py));
    assert Mario.PixelEvents(x, y, color) == window8 + [Data16(color)];
    assert DrawTest.PixelEvents(x, y, color) == window16 + [Data16(color)];
    FlattenAppend(window8, [Data16(color)]);
    FlattenAppend(window16, [Data16(color)]);
    Window8IsWindow16(px, py, px, py);
  }

  /** A run of pixels in range: each point sent as `uint8_t` or as `uint16_t`
      gives the same bytes. */
  lemma {:induction false} PixelsAgree(pts: seq<Point>, color: u16)
    requires forall k :: 0 <= k < |pts| ==> FitsByte(pts[k])
    ensures Flatten(Mario.PixelsEvents(pts, color)) == Flatten(DrawTest.PixelsEvents(pts, color))
  {
    if pts != [] {
      var p := pts[0];
      assert U8(p.x) == U16(p.x) == p.x && U8(p.y) == U16(p.y) == p.y;
      PixelAgree(p.x, p.y, color);
      PixelsAgree(pts[1..], color);
      FlattenAppend(Mario.PixelEvents(p.x, p.y, color), Mario.PixelsEvents(pts[1..], color));
      FlattenAppend(DrawTest.PixelEvents(p.x, p.y, color), DrawTest.PixelsEvents(pts[1..], color));
    }
  }

  /** A Bresenham line between two points in range draws the same pixels, byte
      for byte, in both drivers: every plotted point lies between the endpoints. */
  lemma LineAgree(x0: int, y0: int, x1: int, y1: int, color: u16)
    requires FitsByte(Point(x0, y0)) && FitsByte(Point(x1, y1))
    ensures var pts := LinePoints(x0, y0, x1, y1);
            Flatten(Mario.PixelsEvents(pts, color)) == Flatten(DrawTest.PixelsEvents(pts, color))
  {
    var pts := LinePoints(x0, y0, x1, y1);
    LinePointsInBox(x0, y0, x1, y1);
    assert forall k :: 0 <= k < |pts| ==> FitsByte(pts[k]);
    PixelsAgree(pts, color);
  }

  /** tft_fill_rect sends the same bytes in both drivers when the rectangle's
      far corner is still a `uint8_t` controller coordinate. */
  lemma FillAgree(x: u8, y: u8, w: u8, h: u8, color: u16)
    requires 1 <= w && 1 <= h && x + w < 0x100 && y + h + 25 < 0x100
    ensures Flatten(Mario.FillEvents(x, y, w, h, color)) == Flatten(DrawTest.FillEvents(x, y, w, h, color))
  {
    MarioFillWire(x, y, w, h, color);
    DrawTestFillWire(x, y, w, h, color);
  }

  /** A value in 0..255 is its own `uint8_t` and `uint16_t`. */
  lemma SmallValue(v: int)
    requires 0 <= v < 0x100
    ensures U8(v) == v && U16(v) == v
  {
  }

  lemma MarioFillWire(x: u8, y: u8, w: u8, h: u8, color: u16)
    requires 1 <= w && 1 <= h && x + w < 0x100 && y + h + 25 < 0x100
    ensures Flatten(Mario.FillEvents(x, y, w, h, color))
            == WindowWire(Window(x + 1, y + 26, x + w, y + h + 25)) + DataBytes(Pack(Solid(color, w * h)))
  {
    Mario.FillCovers(x, y, w, h, color);
    SmallValue(x + 1); SmallValue(y + 26); SmallValue(x + w); SmallValue(y + h + 25);
  }

  lemma DrawTestFillWire(x: u8, y: u8, w: u8, h: u8, color: u16)
    requires 1 <= w && 1 <= h && x + w < 0x100 && y + h + 25 < 0x100
    ensures Flatten(DrawTest.FillEvents(x, y, w, h, color))
            == WindowWire(Window(x + 1, y + 26, x + w, y + h + 25)) + DataBytes(Pack(Solid(color, w * h)))
  {
    DrawTest.FillCovers(x, y, w, h, color);
    SmallValue(x + 1); SmallValue(y + 26); SmallValue(x + w); SmallValue(y + h + 25);
  }

  /** With its window corrected, the Mario driver's tft_print_char sends what
      the DrawTest driver's does: the same 5 x 7 window and the same pixels. */
  lemma GlyphAgree(font: Font, c: u8, cx: u8, cy: u8, fg: u16, bg: u16)
    requires cx + 4 < 0x100 && cy + 6 < 0x100
    ensures Flatten(Mario.IntendedGlyphEvents(font, c, cx, cy, fg, bg))
            == Flatten(DrawTest.GlyphEvents(font, c, cx, cy, fg, bg))
  {
    var window := Window(cx, cy, cx + 4, cy + 6);
    var colors := GlyphColors(font, c, fg, bg);
    assert Mario.IntendedGlyphEvents(font, c, cx, cy, fg, bg)
           == WindowEvents8(cx, cy, cx + 4, cy + 6) + Data16Stream(colors);
    assert DrawTest.GlyphEvents(font, c, cx, cy, fg, bg) == WindowEvents(window) + [Block(Pack(colors), 1)];
    Mario.IntendedWireIsBlock(window, colors);
  }
}
