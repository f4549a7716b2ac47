# ST7735 driver for the CH32V003, modelled in Dafny

This project models the two ST7735 LCD drivers of the repository. The panel is 160 x 80 pixels in RGB565.
It also models the `rand8` white-noise generator of the demos.

- **DrawTest driver** (`Examples/DrawTest/st7735.c`): `uint16_t` coordinates. Glyphs and filled rows are staged in a 320-byte row buffer and sent by circular DMA.
- **Mario driver** (`Examples/Mario_PlatformIO/src/st7735.c`): `uint8_t` coordinates. The address window is sent one byte at a time, glyphs one pixel at a time, and numbers are padded to eleven characters.

What a driver does is a **trace**: the sequence of events it sends to the panel. An event is a reset pulse, a command byte, a data byte, a 16-bit data word, or a DMA block repeated `n` times. `Flatten` turns a trace into the bytes on the wire, each tagged with the level of the data/command (DC) line.

Each driver module works in two steps:
- It defines, as pure functions, the trace that each public call sends.
- Its `Driver` class holds the driver's globals: cursor, colours, DC level, row buffer and digit buffer. Each C function becomes a method proved to append exactly that trace and to leave the buffers in a stated state.

The trace functions are then tied to what the panel sees. `ParseWindow` is the controller's reading of an address window, and `Unpack` its reading of a pixel stream. The lemmas cover:
- round trips of the window, the pixel packing and the printed numbers;
- the geometry of the rectangles and lines that are drawn;
- the points of Bresenham's algorithm;
- what the panel holds afterwards: a model of the controller (`Screen`) reads the bytes, and the lemmas show that a fill colours exactly its area, that it leaves the panel as one pixel per cell would, and that a rectangle colours exactly its outline;
- the fact that the two drivers put the same bytes on the wire for `tft_init` and its gamma tables, `tft_draw_pixel`, Bresenham lines and `tft_fill_rect` when their coordinate types agree, and for a glyph once the Mario glyph window is corrected. The fast lines, `tft_draw_rect` and `tft_draw_bitmap` have no such lemma. The Mario `tft_print_char` as written and the two `tft_print_number` do differ.

Modules:
- `Bits`: C integer widths.
- `Transport`: events and wire bytes.
- `Protocol`: opcodes, init sequence, address window.
- `Panel`: geometry and colours.
- `Raster`: glyphs, C strings, decimal text, Bresenham.
- `Screen`: the panel controller reading the wire into a frame of cells.
- `NumberBuffer`: the `str[12]` of `tft_print_number`.
- `Noise`: `rand8`.
- `DrawTestDriver` and `MarioDriver`.
- `Variants`: the two drivers compared.

## Model

| member | source | states |
|---|---|---|
| Bits.I16 | Examples/DrawTest/st7735.c:484-487 | storing into `int16_t` gives a value in -32768..32767, and values already in range are unchanged |
| Bits.I16SameBits | Examples/DrawTest/st7735.c:484-487 | wrapping to `int16_t` keeps the bit pattern, so the `uint16_t` image is unchanged |
| Bits.WordOfHiLo | Examples/DrawTest/st7735.c:218-223 | the two bytes of `write_data_16`, high byte first, rebuild the 16-bit value |
| Transport.RepeatLength | Examples/DrawTest/st7735.c:168-186 | a block repeated `n` times by circular DMA carries `n` times its length |
| Transport.Data16Wire | Examples/DrawTest/st7735.c:218-223 | `write_data_16` sends `data >> 8` then the low byte, both as data, and they rebuild `data` |
| Transport.FlattenBlock | Examples/DrawTest/st7735.c:168-186 | a DMA block puts its bytes, repeated, on the wire as data bytes |
| Transport.Pack | Examples/DrawTest/st7735.c:344-350 | staging colours big-endian takes two bytes per pixel |
| Transport.UnpackPack | Examples/DrawTest/st7735.c:344-350 | the panel reads back exactly the pixels that were staged (round trip) |
| Transport.DataEventsIsBlock | Examples/Mario_PlatformIO/src/st7735.c:229-233 | bytes sent one `write_data_8` at a time reach the wire as one DMA block of the same bytes would |
| Transport.Data16StreamWire | Examples/Mario_PlatformIO/src/st7735.c:193-200 | one `write_data_16` per colour puts the packed colours on the wire, in order |
| Transport.Data16StreamIsBlock | Examples/Mario_PlatformIO/src/st7735.c:293-306 | streaming pixels one word at a time equals one DMA block of the packed pixels |
| Transport.RepeatSolid | Examples/DrawTest/st7735.c:446-456 | a row of `w` pixels of one colour sent `h` times is `w * h` pixels of that colour |
| Transport.StagedTwice | Examples/DrawTest/st7735.c:591-597 | staging two rows of the same length leaves only the second in the buffer |
| Protocol.Rotation0Bits | Examples/DrawTest/st7735.c:245-246 | the MADCTL parameter of rotation 0 is MY, MV and BGR, without MX |
| Protocol.WindowEventsWire | Examples/DrawTest/st7735.c:319-328 | `tft_set_window` puts exactly its 11 bytes on the wire: CASET, x0, x1, RASET, y0, y1, RAMWR |
| Protocol.WindowRoundTrip | Examples/DrawTest/st7735.c:319-328 | the controller recovers exactly the window the driver set, from 11 bytes |
| Protocol.WindowThenBlock | Examples/DrawTest/st7735.c:356-358 | a window and then a block: the controller reads the window from the first 11 bytes and the rest are the block's data |
| Protocol.Window8Wire | Examples/Mario_PlatformIO/src/st7735.c:274-287 | the byte-wise window of `uint8_t` corners puts on the wire the same 11 bytes as the 16-bit window |
| Protocol.Window8IsWindow16 | Examples/Mario_PlatformIO/src/st7735.c:274-287 | the byte-wise window equals the 16-bit one on the wire, and every high byte it sends is 0 |
| Panel.RowBufferHoldsOneRow | Examples/DrawTest/st7735.c:105 | the row buffer holds 320 bytes, one panel row of 16-bit pixels |
| Panel.Rgb565 | Examples/DrawTest/st7735.h:40 | the top 5 bits of red, 6 of green and 5 of blue land in bits 15-11, 10-5 and 4-0 |
| Panel.Bgr565 | Examples/DrawTest/st7735.h:41 | the same packing with blue in the top field and red in the bottom one |
| Panel.BgrSwapsRedAndBlue | Examples/DrawTest/st7735.h:40-41 | BGR565 of (r, g, b) is RGB565 of (b, g, r) |
| Panel.PackingKeepsOnlyHighBits | Examples/DrawTest/st7735.h:40 | two colours pack equal if and only if they agree on the kept high bits of each channel |
| Panel.PaletteValues | Examples/DrawTest/st7735.h:44-62 | the values of the 19 named colours, e.g. RED 0xF800, ORANGE 0xFD20, PINK 0xFC18 |
| Raster.GlyphColors | Examples/DrawTest/st7735.c:337-353 | a glyph expands to 35 pixels |
| Raster.GlyphPixel | Examples/DrawTest/st7735.c:338-351 | pixel (row, col) in row-major order is the foreground exactly when bit `row` of column byte `col` is set |
| Raster.CString | Examples/DrawTest/st7735.c:366-368 | the characters printed are the prefix before the first NUL, and they contain no NUL |
| Raster.CStringOfTerminated | Examples/DrawTest/st7735.c:366-368 | a text followed by a NUL is printed exactly, whatever follows the NUL |
| Raster.LoopDigits | Examples/DrawTest/st7735.c:393-397 | the digit loop writes only digits, and it writes some exactly when the magnitude is non-zero |
| Raster.Decimal | Examples/DrawTest/st7735.c:399-402 | at least one digit, and the leading one is '0' exactly for zero |
| Raster.LeadingDigitNonZero | Examples/DrawTest/st7735.c:393-397 | for a non-zero magnitude the first digit written is not '0' |
| Raster.NumberText | Examples/DrawTest/st7735.c:385-407 | 1 to 11 characters, with no NUL, starting with '-' exactly when the number is negative |
| Raster.Int32Digits | Examples/DrawTest/st7735.c:380-397 | an `int32_t` above the minimum has at most ten digits, so the text fits `str[12]` |
| Raster.NumberTextOfLoop | Examples/DrawTest/st7735.c:392-407 | the text is the sign, then the loop's digits, or "0" when the loop wrote none |
| Raster.LoopDigitsValue | Examples/DrawTest/st7735.c:393-397 | the digits written read back as the magnitude |
| Raster.NumberTextRoundTrip | Examples/DrawTest/st7735.c:378-417 | reading the printed text back gives the number printed |
| Raster.Spaces | Examples/Mario_PlatformIO/src/st7735.c:349-352 | `n` characters, all spaces |
| Raster.PaddedNumberText | Examples/Mario_PlatformIO/src/st7735.c:318-355 | the Mario driver always prints 11 characters, with no NUL |
| Raster.TrimSpacesOf | Examples/Mario_PlatformIO/src/st7735.c:349-352 | a reader that skips leading spaces recovers the text behind the padding |
| Raster.PaddedNumberRoundTrip | Examples/Mario_PlatformIO/src/st7735.c:318-355 | the padded text is spaces, then the number's text right-aligned, and reads back as the number |
| Raster.LinePointsFrom | Examples/DrawTest/st7735.c:548-564 | the line's points are the run from the normalised endpoints with `err = dx >> 1` and the step's sign |
| Raster.RunLength | Examples/DrawTest/st7735.c:566 | the loop plots one point per major coordinate from x0 to x1 |
| Raster.RunPoint | Examples/DrawTest/st7735.c:566-582 | point k is at major coordinate x0 + k, and the minor one then moves by 0 or by `step` |
| Raster.RunEnd | Examples/DrawTest/st7735.c:576-581 | with the error invariant, the last point reaches the far minor coordinate exactly |
| Raster.LinePointsShape | Examples/DrawTest/st7735.c:546-583 | the line has one point per unit of its longer axis; it starts and ends at the two endpoints (in either order); consecutive points are neighbours |
| Raster.NormaliseEnds | Examples/DrawTest/st7735.c:548-559 | after the swaps the major coordinate increases and the endpoints are the originals |
| Raster.RunEnds | Examples/DrawTest/st7735.c:561-582 | a run started with half the major distance as its error goes from one endpoint to the other |
| Raster.RunNeighbours | Examples/DrawTest/st7735.c:566-582 | consecutive plotted points differ by one on the major axis and by at most one on the minor |
| Raster.MinorFromStart | Examples/DrawTest/st7735.c:576-581 | the minor coordinate never moves against the step |
| Raster.MinorToEnd | Examples/DrawTest/st7735.c:576-581 | the last point lies on the step's side of every point |
| Raster.RunInBox | Examples/DrawTest/st7735.c:561-582 | every point of a normalised run lies between its endpoints on both axes |
| Raster.LinePointsInBox | Examples/DrawTest/st7735.c:546-583 | every point Bresenham plots lies in the box spanned by the two endpoints |
| Raster.MajorLoopNeverEnds | Examples/DrawTest/st7735.c:566 | with the far end at 32767, the `int16_t` loop counter as written takes every turn it is given: the loop never ends |
| Raster.LastColumnLineHangs | Examples/Mario_PlatformIO/src/st7735.c:466 | the line from (32766, 0) to (32767, 1) has two points, but the counter as written goes on from 32767 to -32768 |
| Raster.DiagonalExample | Examples/DrawTest/st7735.c:546-583 | the diagonal from (0,0) to (3,3) is plotted as its four points |
| NumberBuffer.DigitStep | Examples/DrawTest/st7735.c:393-397 | one turn of the digit loop moves the last digit in front of those already written |
| NumberBuffer.SpacesCons | Examples/Mario_PlatformIO/src/st7735.c:349-352 | one turn of the padding loop adds one space in front |
| NumberBuffer.DigitBuffer.constructor | Examples/DrawTest/st7735.c:380 | `static char str[12]` holds 12 zero bytes |
| NumberBuffer.DigitBuffer.Push | Examples/DrawTest/st7735.c:395 | `str[--position] = ch`: the text grows by one character in front, and the cells before it are unchanged |
| NumberBuffer.DigitBuffer.Format | Examples/DrawTest/st7735.c:381-407 | the buffer ends with the number's text and its NUL; `position` is where the text starts; the cells before it are unchanged |
| NumberBuffer.DigitBuffer.Pad | Examples/Mario_PlatformIO/src/st7735.c:349-352 | every cell in front of the text becomes a space, and the buffer is the padded text and its NUL |
| Screen.ApplyAppend | Examples/DrawTest/st7735.c:190-223 | the controller reads the wire one byte at a time, so two stretches of wire act in turn |
| Screen.WindowSets | Examples/DrawTest/st7735.c:319-328 | the 11 bytes of `tft_set_window` set the column and row ranges and start a memory write, whatever came before |
| Screen.WriteRun | Examples/DrawTest/st7735.c:218-223 | in a memory write, each pixel's two bytes, high byte first, store it at the next cell of the window |
| Screen.CellIndex | Examples/DrawTest/st7735.c:319-328 | pixel k of a write that fits the window lands inside the window, at row-major position k |
| Screen.IndexCell | Examples/DrawTest/st7735.c:319-328 | every cell of the window is the landing cell of one pixel position of a write |
| Screen.PaintedAt | Examples/DrawTest/st7735.c:218-223 | after a run of pixels, a cell holds the pixel whose position is its index, or what it held before |
| Screen.WindowPaint | Examples/DrawTest/st7735.c:319-328 | a window and a pixel stream: each cell inside holds the pixel at its row-major index, cells outside or past the stream keep their colour |
| Screen.SolidPaint | Examples/DrawTest/st7735.c:441-458 | a window filled with one colour: every cell inside holds it, every cell outside is untouched |
| Screen.PixelPaint | Examples/DrawTest/st7735.c:424-432 | a one-cell window and a colour store the colour at that cell and change nothing else |
| Screen.PlotAt | Examples/DrawTest/st7735.c:424-432 | after plotting a list of cells, a cell holds the colour exactly when it is on the list |
| Screen.OutlinePaint | Examples/DrawTest/st7735.c:591-597 | four one-cell-thick fills along the edges colour exactly the window's border and leave its interior and outside untouched |
| Noise.StepBits | Examples/DrawTest/st7735_demo.c:144-146 | a shift moves bits 0-30 up one place and puts the feedback bit (bits 31, 21, 1 and 0 XORed) in bit 0 |
| Noise.StepNonZero | Examples/DrawTest/st7735_demo.c:144-146 | a non-zero register never shifts into the all-zero state |
| Noise.StepsNonZero | Examples/DrawTest/st7735_demo.c:142-147 | any number of shifts keeps the register non-zero |
| Noise.LowByteOfEight | Examples/DrawTest/st7735_demo.c:142-149 | after eight shifts the low byte holds the eight feedback bits, the first in bit 7 |
| Noise.OutputIsFeedback | Examples/DrawTest/st7735_demo.c:137-150 | the byte `rand8` returns is exactly the eight feedback bits of the call: nothing of the old low byte survives |
| Noise.Generator.constructor | Examples/DrawTest/st7735_demo.c:132 | the register starts at 1, which is non-zero |
| Noise.Generator.Rand8 | Examples/DrawTest/st7735_demo.c:137-150 | the register is shifted eight times, the low byte is returned, and the register stays non-zero |
| Noise.FirstOutputs | Examples/DrawTest_PlatformIO/src/st7735_demo.c:190-208 | from the initial state 1 the first two calls return 0xB6 and 0xDB |
| DrawTestDriver.Driver.constructor | Examples/DrawTest/st7735.c:101-105 | cursor at 0, white on black, zeroed row buffer, nothing sent yet |
| DrawTestDriver.Driver.SpiSend | Examples/DrawTest/st7735.c:190-198 | one byte, sent as data or command according to the DC level |
| DrawTestDriver.Driver.SendDMA | Examples/DrawTest/st7735.c:168-186 | one block: the first `size` bytes of the source, `repeat` times |
| DrawTestDriver.Driver.DataMode | Examples/DrawTest/st7735.c:35-38 | DC goes high |
| DrawTestDriver.Driver.WriteCommand8 | Examples/DrawTest/st7735.c:202-206 | the opcode is sent as a command and DC is left low |
| DrawTestDriver.Driver.WriteData8 | Examples/DrawTest/st7735.c:210-214 | the byte is sent as data and DC is left high |
| DrawTestDriver.Driver.WriteData16 | Examples/DrawTest/st7735.c:218-223 | the word is sent as data, high byte first |
| DrawTestDriver.Driver.SetWindow | Examples/DrawTest/st7735.c:319-328 | the trace gains exactly the window's CASET/RASET/RAMWR sequence |
| DrawTestDriver.Driver.Init | Examples/DrawTest/st7735.c:228-286 | the trace gains the reset pulse, SLPOUT, MADCTL, COLMOD, both gamma tables, INVON, NORON and DISPON, in that order |
| DrawTestDriver.Driver.Wake | Examples/DrawTest/st7735.c:233-253 | reset, sleep out, rotation 0 and 16 bits per pixel |
| DrawTestDriver.Driver.SendGamma | Examples/DrawTest/st7735.c:257-269 | each gamma command followed by its 16 parameters as one DMA block |
| DrawTestDriver.Driver.SwitchOn | Examples/DrawTest/st7735.c:274-282 | inversion on, normal mode, display on |
| DrawTestDriver.Driver.SetCursor | Examples/DrawTest/st7735.c:292-296 | the cursor is the position plus the panel offsets (1, 26), in `uint16_t` |
| DrawTestDriver.Driver.SetColor | Examples/DrawTest/st7735.c:301-304 | the text colour is set |
| DrawTestDriver.Driver.SetBackgroundColor | Examples/DrawTest/st7735.c:309-312 | the background colour is set |
| DrawTestDriver.Driver.StageGlyph | Examples/DrawTest/st7735.c:337-353 | the buffer starts with the glyph's 35 pixels packed (70 bytes), and the rest is unchanged |
| DrawTestDriver.Driver.StagePixel | Examples/DrawTest/st7735.c:344-345 | two more bytes of the staged prefix, high byte first; the rest of the buffer is unchanged |
| DrawTestDriver.Driver.PrintChar | Examples/DrawTest/st7735.c:333-360 | a 5 x 7 window at the cursor, then the staged glyph as one DMA block |
| DrawTestDriver.Driver.Print | Examples/DrawTest/st7735.c:364-371 | one glyph per character before the NUL, each 6 columns right of the last; the cursor ends `6 * n` columns on |
| DrawTestDriver.Driver.PrintNext | Examples/DrawTest/st7735.c:366-370 | one turn of `tft_print`: the next glyph at the reached cursor, then the cursor 6 columns on |
| DrawTestDriver.Driver.PrintNumber | Examples/DrawTest/st7735.c:378-417 | the number's text is printed from `NumberStart`, and the buffer ends with the text and its NUL |
| DrawTestDriver.Driver.PlaceNumber | Examples/DrawTest/st7735.c:378-414 | the string handed to `tft_print` is the number's text; the cursor is shifted right by `width - num_width` when the width exceeds the text width |
| DrawTestDriver.Driver.StageColor | Examples/DrawTest/st7735.c:446-451 | the buffer starts with `n` pixels of the colour (none for a negative count), and the rest is unchanged |
| DrawTestDriver.Driver.DrawPixel | Examples/DrawTest/st7735.c:424-432 | a one-pixel window at the offset position, then the colour |
| DrawTestDriver.Driver.FillRect | Examples/DrawTest/st7735.c:441-458 | the area's window, then one staged row sent `h` times |
| DrawTestDriver.Driver.DrawBitmap | Examples/DrawTest/st7735.c:466-475 | the area's window, then the first `(w * h) << 1` bytes of the bitmap (as a `uint16_t`) |
| DrawTestDriver.Driver.DrawFastVLine | Examples/DrawTest/st7735.c:484-501 | the `int16_t`-offset one-column window, then `h` staged pixels once |
| DrawTestDriver.Driver.DrawFastHLine | Examples/DrawTest/st7735.c:510-527 | the one-row window, then `w` staged pixels once |
| DrawTestDriver.Driver.DrawLineBresenham | Examples/DrawTest/st7735.c:546-583 | one `tft_draw_pixel` per point of `LinePoints`, in plotting order |
| DrawTestDriver.Driver.DrawRect | Examples/DrawTest/st7735.c:591-597 | top and bottom edges, then left and right; the buffer is left holding one column |
| DrawTestDriver.Driver.DrawLine | Examples/DrawTest/st7735.c:606-628 | a vertical line through the fast V path from the lower y; a horizontal one through the fast H path from the lower x; otherwise Bresenham, with the buffer untouched |
| DrawTestDriver.GlyphBytes | Examples/DrawTest/st7735.c:342-351 | pixel (row, col) is staged at bytes `10 row + 2 col` and the next one, high byte first |
| DrawTestDriver.PrintStep | Examples/DrawTest/st7735.c:366-370 | one turn of `tft_print` extends the trace of the text printed so far by one character |
| DrawTestDriver.GlyphTrace | Examples/DrawTest/st7735.c:355-358 | a window and the glyph block together are one printed character |
| DrawTestDriver.LineStep | Examples/DrawTest/st7735.c:566-582 | one turn of the Bresenham loop plots the first point of the remaining run and leaves the rest of it |
| DrawTestDriver.TextSnoc | Examples/DrawTest/st7735.c:364-371 | printing one more character appends its glyph at the cursor reached |
| DrawTestDriver.CursorAfterIs | Examples/DrawTest/st7735.c:369 | after `n` characters the cursor is `6 n` columns further right, modulo 2^16 |
| DrawTestDriver.TextEventsAppend | Examples/DrawTest/st7735.c:364-371 | printing a and then b sends what printing a + b does |
| DrawTestDriver.AreaWindowCorners | Examples/DrawTest/st7735.c:443-454 | the fill window runs from (x + 1, y + 26) to (x + w, y + h + 25) |
| DrawTestDriver.FillCovers | Examples/DrawTest/st7735.c:441-458 | the window's 11 bytes, then exactly `w * h` pixels of the colour |
| DrawTestDriver.HLineIsFill | Examples/DrawTest/st7735.c:510-527 | a horizontal line away from the `int16_t` limits is a fill one row high |
| DrawTestDriver.VLineIsFill | Examples/DrawTest/st7735.c:484-501 | a vertical line away from the limits puts on the wire what a fill one column wide does |
| DrawTestDriver.RectIsFourEdges | Examples/DrawTest/st7735.c:591-597 | the outline is four fills: top row, bottom row, left column, right column |
| DrawTestDriver.PixelCovers | Examples/DrawTest/st7735.c:424-432 | the one-pixel window at (x + 1, y + 26), then the colour's two bytes |
| DrawTestDriver.GlyphCovers | Examples/DrawTest/st7735.c:333-360 | the controller reads a 5 x 7 window at the cursor, then the glyph's 70 bytes |
| DrawTestDriver.NumberRightAligned | Examples/DrawTest/st7735.c:409-416 | when the width exceeds the text width, the last glyph ends at `cx + width`; otherwise the text starts at the cursor |
| DrawTestDriver.RightAligned | Examples/DrawTest/st7735.c:409-414 | the same alignment for any non-empty text |
| DrawTestDriver.LastCharacter | Examples/DrawTest/st7735.c:364-371 | the last character's glyph is printed `6 (n - 1)` columns right of the start |
| DrawTestDriver.LastGlyphColumn | Examples/DrawTest/st7735.c:410-414 | the last glyph starts `FONT_WIDTH` columns before `cx + width` |
| DrawTestDriver.DemoScanLineOverflows | Examples/DrawTest/st7735_demo.c:80 | the horizontal line from x = 0 to 180 stages 362 bytes, 42 more than the row buffer holds |
| DrawTestDriver.DemoScanLineWithinPanel | Examples/DrawTest/st7735_demo.c:78-80 | a scan line to x = 159 fits the buffer and fills visible row i, controller columns 1 to 160 |
| DrawTestDriver.PixelsPaint | Examples/DrawTest/st7735.c:424-432 | one `tft_draw_pixel` per point stores the colour at each point's offset cell, modulo 2^16, and nowhere else |
| DrawTestDriver.FillWire | Examples/DrawTest/st7735.c:441-458 | `tft_fill_rect` sends the window of the offset area and then one pixel of the colour per cell |
| DrawTestDriver.FillPaintsArea | Examples/DrawTest/st7735.c:441-458 | on the panel, cells (x + 1..x + w, y + 26..y + h + 25) hold the colour and every other cell is untouched |
| DrawTestDriver.CellsTargets | Examples/DrawTest/st7735.c:424-458 | the offset cells of the rectangle's points are exactly the cells of the fill window |
| DrawTestDriver.FillEqualsPixels | Examples/DrawTest/st7735.c:424-458 | `tft_fill_rect` leaves the panel as one `tft_draw_pixel` per cell of the rectangle would |
| DrawTestDriver.RectWire | Examples/DrawTest/st7735.c:591-597 | `tft_draw_rect` sends four edge fills of the offset area: top row, bottom row, left column, right column |
| DrawTestDriver.RectBorder | Examples/DrawTest/st7735.c:591-597 | on the panel the outline holds the colour, the four corners among it, and the interior and outside are untouched |
| MarioDriver.Driver.constructor | Examples/Mario_PlatformIO/src/st7735.c:90-94 | cursor at 0, black on white, zeroed row buffer, nothing sent yet |
| MarioDriver.Driver.WriteCommand8 | Examples/Mario_PlatformIO/src/st7735.c:175-181 | the opcode is sent as a command |
| MarioDriver.Driver.WriteData8 | Examples/Mario_PlatformIO/src/st7735.c:184-190 | the byte is sent as data |
| MarioDriver.Driver.WriteData16 | Examples/Mario_PlatformIO/src/st7735.c:193-200 | the word is sent as data, high byte first |
| MarioDriver.Driver.SendDMA | Examples/Mario_PlatformIO/src/st7735.c:143-161 | one block: the first `size` bytes, `repeat` times |
| MarioDriver.Driver.SendRange | Examples/Mario_PlatformIO/src/st7735.c:276-280 | CASET or RASET, then each corner's high and low byte as separate data bytes |
| MarioDriver.Driver.SetWindow | Examples/Mario_PlatformIO/src/st7735.c:274-287 | the trace gains the byte-wise window sequence of the `uint8_t` corners |
| MarioDriver.Driver.Init | Examples/Mario_PlatformIO/src/st7735.c:202-256 | the same command sequence as the DrawTest driver, with the gamma tables sent byte by byte |
| MarioDriver.Driver.Wake | Examples/Mario_PlatformIO/src/st7735.c:207-225 | reset, sleep out, rotation 0 and 16 bits per pixel |
| MarioDriver.Driver.SendGamma | Examples/Mario_PlatformIO/src/st7735.c:229-241 | each gamma command followed by its 16 parameters, one `write_data_8` each |
| MarioDriver.Driver.WriteTable | Examples/Mario_PlatformIO/src/st7735.c:230-233 | the table's bytes as data, one event each, in order |
| MarioDriver.Driver.SwitchOn | Examples/Mario_PlatformIO/src/st7735.c:246-254 | inversion on, normal mode, display on |
| MarioDriver.Driver.SetCursor | Examples/Mario_PlatformIO/src/st7735.c:258-262 | the cursor is the position plus the offsets, wrapping modulo 256 |
| MarioDriver.Driver.SetColor | Examples/Mario_PlatformIO/src/st7735.c:264-267 | the text colour is set |
| MarioDriver.Driver.SetBackgroundColor | Examples/Mario_PlatformIO/src/st7735.c:269-272 | the background colour is set |
| MarioDriver.Driver.PrintChar | Examples/Mario_PlatformIO/src/st7735.c:289-307 | the window as written, then the glyph's 35 pixels as one `write_data_16` each, row by row |
| MarioDriver.Driver.Print | Examples/Mario_PlatformIO/src/st7735.c:309-316 | one glyph per character before the NUL; the `uint8_t` cursor ends `6 n` columns on, modulo 256 |
| MarioDriver.Driver.PrintNumber | Examples/Mario_PlatformIO/src/st7735.c:318-355 | the 11-character padded text is printed, and the cursor moves 66 columns |
| MarioDriver.Driver.PadNumber | Examples/Mario_PlatformIO/src/st7735.c:320-352 | the buffer holds the padded text and its NUL, and it is what `tft_print` receives |
| MarioDriver.Driver.StageColor | Examples/Mario_PlatformIO/src/st7735.c:371-376 | the buffer starts with `n` pixels of the colour, and the rest is unchanged |
| MarioDriver.Driver.DrawPixel | Examples/Mario_PlatformIO/src/st7735.c:357-363 | a one-pixel window at the `uint8_t`-offset position, then the colour |
| MarioDriver.Driver.FillRect | Examples/Mario_PlatformIO/src/st7735.c:365-382 | the area's window, then one staged row sent `h` times |
| MarioDriver.Driver.DrawBitmap | Examples/Mario_PlatformIO/src/st7735.c:384-394 | the area's window, then the first `(w * h) << 1` bytes of the bitmap |
| MarioDriver.Driver.DrawFastVLine | Examples/Mario_PlatformIO/src/st7735.c:408-425 | the one-column window, with its corners passed as `uint8_t`, then `h` staged pixels |
| MarioDriver.Driver.DrawFastHLine | Examples/Mario_PlatformIO/src/st7735.c:427-444 | the one-row window, then `w` staged pixels |
| MarioDriver.Driver.DrawLineBresenham | Examples/Mario_PlatformIO/src/st7735.c:446-483 | one `tft_draw_pixel` per point of `LinePoints`, each coordinate cut to `uint8_t` |
| MarioDriver.Driver.DrawRect | Examples/Mario_PlatformIO/src/st7735.c:485-491 | top and bottom edges, then left and right; the buffer is left holding one column |
| MarioDriver.Driver.DrawLine | Examples/Mario_PlatformIO/src/st7735.c:493-515 | the fast V path for vertical lines, the fast H path for horizontal ones, Bresenham otherwise |
| MarioDriver.StreamStep | Examples/Mario_PlatformIO/src/st7735.c:299-303 | one more `write_data_16` extends the pixel stream by one colour |
| MarioDriver.PixelStep | Examples/Mario_PlatformIO/src/st7735.c:293-306 | pixel (row, col) sent by the loops is the glyph's pixel `5 row + col` |
| MarioDriver.PrintStep | Examples/Mario_PlatformIO/src/st7735.c:311-315 | one turn of `tft_print` extends the trace of the text by one character |
| MarioDriver.TextSnoc | Examples/Mario_PlatformIO/src/st7735.c:309-316 | printing one more character appends its glyph at the cursor reached |
| MarioDriver.CursorAfterIs | Examples/Mario_PlatformIO/src/st7735.c:314 | after `n` characters the cursor is `6 n` columns further right, modulo 256 |
| MarioDriver.TextEventsAppend | Examples/Mario_PlatformIO/src/st7735.c:309-316 | printing a and then b sends what printing a + b does |
| MarioDriver.LineStep | Examples/Mario_PlatformIO/src/st7735.c:466-482 | one turn of the line loop plots the first point of the remaining run |
| MarioDriver.AreaCorners | Examples/Mario_PlatformIO/src/st7735.c:365-382 | the fill window runs from (x + 1, y + 26) to (x + w, y + h + 25), each corner a `uint8_t` |
| MarioDriver.FillCovers | Examples/Mario_PlatformIO/src/st7735.c:365-382 | the window's 11 bytes, then exactly `w * h` pixels of the colour |
| MarioDriver.HLineIsFill | Examples/Mario_PlatformIO/src/st7735.c:427-444 | a horizontal line of `uint8_t` arguments is a fill one row high |
| MarioDriver.VLineIsFill | Examples/Mario_PlatformIO/src/st7735.c:408-425 | a vertical line puts on the wire what a fill one column wide does |
| MarioDriver.RectIsFourEdges | Examples/Mario_PlatformIO/src/st7735.c:485-491 | the outline is four fills: top row, bottom row, left column, right column |
| MarioDriver.PixelCovers | Examples/Mario_PlatformIO/src/st7735.c:357-363 | the one-pixel window at (x + 1, y + 26) modulo 256, then the colour's two bytes |
| MarioDriver.GlyphWindowMisplaced | Examples/Mario_PlatformIO/src/st7735.c:291 | at cursor (1, 26) the window as written ends at row 7, before its first row 26 |
| MarioDriver.GlyphWindowAsIntended | Examples/Mario_PlatformIO/src/st7735.c:291 | the window as written is the glyph's own window exactly when cx == cy |
| MarioDriver.IntendedGlyphCovers | Examples/Mario_PlatformIO/src/st7735.c:289-307 | with the window corrected, the controller reads a 5 x 7 window at the cursor, then the glyph's 70 bytes |
| MarioDriver.IntendedWireIsBlock | Examples/Mario_PlatformIO/src/st7735.c:289-307 | the corrected byte-wise glyph puts on the wire what a 16-bit window and one block would |
| MarioDriver.NumberRightAligned | Examples/Mario_PlatformIO/src/st7735.c:349-354 | spaces are printed first, then the digits, starting 6 columns per space to the right |
| MarioDriver.NumberLastGlyph | Examples/Mario_PlatformIO/src/st7735.c:349-354 | the number's last character is always the eleventh glyph, 60 columns right of the cursor |
| MarioDriver.ElevenCharacters | Examples/Mario_PlatformIO/src/st7735.c:309-316 | an 11-character text ends with its last glyph 60 columns right of the start |
| MarioDriver.PixelsPaint | Examples/Mario_PlatformIO/src/st7735.c:357-363 | one `tft_draw_pixel` per point stores the colour at each point's offset cell, modulo 256, and nowhere else |
| MarioDriver.FillWire | Examples/Mario_PlatformIO/src/st7735.c:365-382 | `tft_fill_rect` sends the window of the offset area and then one pixel of the colour per cell |
| MarioDriver.FillPaintsArea | Examples/Mario_PlatformIO/src/st7735.c:365-382 | on the panel, cells (x + 1..x + w, y + 26..y + h + 25) hold the colour and every other cell is untouched |
| MarioDriver.CellsTargets | Examples/Mario_PlatformIO/src/st7735.c:357-382 | the offset cells of the rectangle's points are exactly the cells of the fill window |
| MarioDriver.FillEqualsPixels | Examples/Mario_PlatformIO/src/st7735.c:357-382 | `tft_fill_rect` leaves the panel as one `tft_draw_pixel` per cell of the rectangle would |
| MarioDriver.RectWire | Examples/Mario_PlatformIO/src/st7735.c:485-491 | `tft_draw_rect` sends four edge fills of the offset area: top row, bottom row, left column, right column |
| MarioDriver.RectBorder | Examples/Mario_PlatformIO/src/st7735.c:485-491 | on the panel the outline holds the colour, the four corners among it, and the interior and outside are untouched |
| Variants.GammaAgree | Examples/Mario_PlatformIO/src/st7735.c:229-241 | the gamma tables sent byte by byte reach the wire as the DrawTest driver's two DMA blocks do |
| Variants.InitAgree | Examples/Mario_PlatformIO/src/st7735.c:202-256 | both `tft_init` sequences put the same bytes on the wire |
| Variants.PanelFitsByte | Examples/DrawTest/st7735.h:20-23 | every visible pixel's controller coordinates fit a `uint8_t` |
| Variants.PixelAgree | Examples/Mario_PlatformIO/src/st7735.c:357-363 | `tft_draw_pixel` of either driver sends the same bytes when the shifted coordinates fit a byte |
| Variants.PixelsAgree | Examples/Mario_PlatformIO/src/st7735.c:357-363 | a sequence of such pixels gives the same bytes in both drivers |
| Variants.LineAgree | Examples/Mario_PlatformIO/src/st7735.c:446-483 | a Bresenham line between in-range endpoints is sent byte for byte alike by both drivers |
| Variants.FillAgree | Examples/Mario_PlatformIO/src/st7735.c:365-382 | `tft_fill_rect` sends the same bytes in both drivers when the far corner fits a `uint8_t` |
| Variants.MarioFillWire | Examples/Mario_PlatformIO/src/st7735.c:365-382 | the Mario fill puts on the wire the window and then `w * h` pixels |
| Variants.DrawTestFillWire | Examples/DrawTest/st7735.c:441-458 | the DrawTest fill puts on the wire the window and then `w * h` pixels |
| Variants.GlyphAgree | Examples/Mario_PlatformIO/src/st7735.c:289-307 | with its window corrected, the Mario glyph is sent as the DrawTest glyph is |

## Left out

- `SPI_init`, the GPIO and DMA register setup, chip select (`START_WRITE`/`END_WRITE`, `BEGIN_WRITE`/`END_WRITE`), the DMA busy-wait and the `Delay_Ms` calls are not modelled. The panel sees only the bytes and the DC level, and the reset pulse is one `Reset` event.
- The circular DMA transfer is one atomic `Block` event. Its byte-level meaning is given by `Flatten`, not by the register loop that waits for `repeat` transfers.
- The font table's contents are not modelled. The font is a parameter: any 1280-byte table of five column bytes per character code.
- `write_data_16` is one `Data16` event; `Flatten` turns it into its two data bytes.
- DrawTestDriver.Driver.DrawLineBresenham: requires every coordinate to lie in -16384..16383. Inside that range the `int16_t` arithmetic of `dx`, `err` and the loop cannot wrap; outside it, the wrapped behaviour is not modelled. A line whose major coordinate ends at 32767 makes the loop as written run forever (see Findings); the method's loop counter is unbounded and always ends.
- MarioDriver.Driver.DrawLineBresenham: requires the same coordinate range, for the same reason, and has the same endless loop at 32767.
- DrawTestDriver.Driver.DrawLine: a diagonal line needs all four coordinates in -16384..16383, as for DrawLineBresenham. So a line such as (0, 0) to (20000, 1) is refused, although C draws it without any wrap. Axis lines need the staged row to fit the 320-byte buffer: at most 160 pixels, because a longer row writes past the array.
- MarioDriver.Driver.DrawLine: the same range for diagonal lines. Axis lines also need the `int16_t` length `y1 - y0 + 1` (or `x1 - x0 + 1`) to stay non-negative and at most 160 pixels. A length that wraps negative in C is refused, as for DrawFastVLine and DrawFastHLine: the Mario fast lines then stage nothing and hand the DMA a size of `h << 1` taken modulo 2^16, which reads past the 320-byte buffer.
- DrawTestDriver.Driver.PrintNumber: `INT32_MIN` is excluded. Its negation overflows `int32_t`, which is undefined behaviour in C.
- MarioDriver.Driver.PrintNumber: `INT32_MIN` is excluded, for the same reason.
- MarioDriver.Driver.DrawFastVLine: requires `h >= 0`. With a negative height the staged count and the window wrap differently, and that case is not modelled.
- MarioDriver.Driver.DrawFastHLine: requires `w >= 0`, for the same reason.
- The row buffer overflow is excluded: the fills and fast lines require the staged row to fit the 320-byte buffer, because a longer row writes past the array, which is undefined behaviour in C. The demo call that breaks this is under Findings.
- DrawTestDriver.Driver.Print: the row buffer's contents after printing are not stated. Only the trace and the cursor are. (The Mario `tft_print` does not touch the row buffer, and its method leaves it unchanged.)
- `Screen` is the controller only as far as these drivers drive it: CASET, RASET and RAMWR. Every other command, and any data after it, leaves the frame alone. The frame is an unbounded map from controller column and row to colour. The controller's own memory size, the MADCTL orientation and the panel's reading of that memory are not modelled. Pixels sent after the window is full are dropped, which may not be what the controller does with them; no driver call sends such pixels in the cases the lemmas state.
- DrawTestDriver.RectBorder and MarioDriver.RectBorder: stated for rectangles whose far corner, shifted by the offsets, still fits the coordinate type (and, for the DrawTest driver, an `int16_t`). A rectangle that wraps is not stated on the panel. Its wire is still given by `RectEvents`.
- DrawTestDriver.FillEqualsPixels, MarioDriver.FillEqualsPixels and the other panel lemmas of the fills: stated for areas whose far corner, shifted by the offsets, fits the coordinate type. Wrapping areas are given only on the wire.
- The Mario gamma writes are sixteen `write_data_8` calls per table. They are modelled as a loop over the table (`WriteTable`), which sends the same events in the same order.
- The header declares `tft_print_number(int32_t num)`, but the DrawTest driver defines `tft_print_number(int32_t num, uint16_t width)`. The model follows the definition, with `width`.
- The Mario driver's methods keep the glyph window as written (see Findings). The corrected window is stated only in lemmas (`IntendedGlyphEvents`, `IntendedGlyphCovers`, `GlyphAgree`).
- How the demos use `rand8` (random positions and colours for the pixels, lines, rectangles and fills) is not modelled. Only the generator is.
- `Examples/DrawTest_PlatformIO/src/st7735_demo.c` has the same `rand8` and initial state as the DrawTest demo. The one `Noise` module models both.

## Findings

| source | as written | input that shows it | evidently intended | confidence | as-written member | corrected member |
|---|---|---|---|---|---|---|
| Examples/Mario_PlatformIO/src/st7735.c:291 | the glyph window's last row is `_cursor_x + 6` | cursor (1, 26), the panel's top-left corner: rows 26 to 7 | last row `_cursor_y + 6`, as in the DrawTest driver (rows 26 to 32) | high; not executed | MarioDriver.GlyphWindowMisplaced | MarioDriver.IntendedGlyphCovers |
| Examples/DrawTest/st7735_demo.c:80 | `tft_draw_line(0, i, 180, i, ...)` stages 181 pixels | any i: 362 bytes written into the 320-byte `_buffer` | the panel width, `tft_draw_line(0, i, 159, i, ...)` | high; not executed | DrawTestDriver.DemoScanLineOverflows | DrawTestDriver.DemoScanLineWithinPanel |
| Examples/DrawTest/st7735.c:566 | `for (; x0 <= x1; x0++)` with `int16_t x0` | `tft_draw_line(32766, 0, 32767, 1)`: after 32767, `x0++` stores -32768, which is still `<= x1`, so the loop never ends | a counter wider than `int16_t`, so the loop stops after `x1` and plots the line's two points | high; not executed | Raster.MajorLoopNeverEnds | Raster.LinePointsShape |
| Examples/Mario_PlatformIO/src/st7735.c:466 | the same loop in `_tft_draw_line` | the same call: the counter goes 32766, 32767, -32768, ... | the same: stop after `x1` | high; not executed | Raster.MajorLoopNeverEnds | Raster.LinePointsShape |
