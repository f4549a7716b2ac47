/** The panel description shared by both drivers: geometry, RGB565 packing
    and the named palette. */
module Panel {
  import opened Bits

  const Width: nat := 160
  const Height: nat := 80
  /** Offsets of the visible area inside the controller's address space. */
  const XOffset: nat := 1
  const YOffset: nat := 26

  /** The row buffer of both drivers: `ST7735_WIDTH << 1` bytes, one row of 16-bit pixels. */
  const RowBufferBytes: nat := Width * 2

  lemma RowBufferHoldsOneRow()
    ensures RowBufferBytes == 320 && RowBufferBytes == 2 * Width
  {
  }

  /** RGB565: the top five bits of red, six of green, five of blue. */
  function Rgb565(r: bv8, g: bv8, b: bv8): (c: bv16)
    ensures c >> 11 == (r >> 3) as bv16
    ensures (c >> 5) & 0x3F == (g >> 2) as bv16
    ensures c & 0x1F == (b >> 3) as bv16
  {
    (((r as bv16) & 0xF8) << 8) | (((g as bv16) & 0xFC) << 3) | ((b as bv16) >> 3)
  }

  /** The same packing for panels wired with red and blue exchanged. */
  function Bgr565(r: bv8, g: bv8, b: bv8): (c: bv16)
    ensures c >> 11 == (b >> 3) as bv16
    ensures (c >> 5) & 0x3F == (g >> 2) as bv16
    ensures c & 0x1F == (r >> 3) as bv16
  {
    (((b as bv16) & 0xF8) << 8) | (((g as bv16) & 0xFC) << 3) | ((r as bv16) >> 3)
  }

  lemma BgrSwapsRedAndBlue(r: bv8, g: bv8, b: bv8)
    ensures Bgr565(r, g, b) == Rgb565(b, g, r)
  {
  }

  /** Packing drops the low bits of each channel: inputs that agree on the kept
      bits give the same colour, and inputs that differ there give different ones. */
  lemma PackingKeepsOnlyHighBits(r: bv8, g: bv8, b: bv8, r': bv8, g': bv8, b': bv8)
    ensures Rgb565(r, g, b) == Rgb565(r', g', b') <==>
            (r >> 3 == r' >> 3 && g >> 2 == g' >> 2 && b >> 3 == b' >> 3)
  {
    var c, c' := Rgb565(r, g, b), Rgb565(r', g', b');
    if c == c' {
      assert (r >> 3) as bv16 == (r' >> 3) as bv16;
      assert (g >> 2) as bv16 == (g' >> 2) as bv16;
      assert (b >> 3) as bv16 == (b' >> 3) as bv16;
    }
  }

  /** The colour a driver stores and sends: a 16-bit value. */
  function Rgb(r: bv8, g: bv8, b: bv8): u16
  {
    Rgb565(r, g, b) as int
  }

  const BLACK: u16 := Rgb(0, 0, 0)
  const NAVY: u16 := Rgb(0, 0, 123)
  const DARKGREEN: u16 := Rgb(0, 125, 0)
  const DARKCYAN: u16 := Rgb(0, 125, 123)
  const MAROON: u16 := Rgb(123, 0, 0)
  const PURPLE: u16 := Rgb(123, 0, 123)
  const OLIVE: u16 := Rgb(123, 125, 0)
  const LIGHTGREY: u16 := Rgb(198, 195, 198)
  const DARKGREY: u16 := Rgb(123, 125, 123)
  const BLUE: u16 := Rgb(0, 0, 255)
  const GREEN: u16 := Rgb(0, 255, 0)
  const CYAN: u16 := Rgb(0, 255, 255)
  const RED: u16 := Rgb(255, 0, 0)
  const MAGENTA: u16 := Rgb(255, 0, 255)
  const YELLOW: u16 := Rgb(255, 255, 0)
  const WHITE: u16 := Rgb(255, 255, 255)
  const ORANGE: u16 := Rgb(255, 165, 0)
  const GREENYELLOW: u16 := Rgb(173, 255, 41)
  const PINK: u16 := Rgb(255, 130, 198)

  lemma PaletteValues()
    ensures BLACK == 0x0000 && WHITE == 0xFFFF
    ensures RED == 0xF800 && GREEN == 0x07E0 && BLUE == 0x001F
    ensures NAVY == 0x000F && DARKGREEN == 0x03E0 && DARKCYAN == 0x03EF
    ensures MAROON == 0x7800 && PURPLE == 0x780F && OLIVE == 0x7BE0
    ensures LIGHTGREY == 0xC618 && DARKGREY == 0x7BEF && CYAN == 0x07FF
    ensures MAGENTA == 0xF81F && YELLOW == 0xFFE0 && ORANGE == 0xFD20
    ensures GREENYELLOW == 0xAFE5 && PINK == 0xFC18
  {
  }
}
