/** The ST7735 command set as the two drivers use it: opcodes, parameter
    values, and the encoding of an address window. */
module Protocol {
  import opened Bits
  import opened Transport

  datatype Option<T> = None | Some(value: T)

  // System and panel commands
  const SLPOUT: u8 := 0x11
  const NORON: u8 := 0x13
  const INVOFF: u8 := 0x20
  const INVON: u8 := 0x21
  const DISPON: u8 := 0x29
  const CASET: u8 := 0x2A
  const RASET: u8 := 0x2B
  const RAMWR: u8 := 0x2C
  const MADCTL: u8 := 0x36
  const COLMOD: u8 := 0x3A
  const GMCTRP1: u8 := 0xE0
  const GMCTRN1: u8 := 0xE1

  // MADCTL bits
  const MADCTL_MY: bv8 := 0x80
  const MADCTL_MX: bv8 := 0x40
  const MADCTL_MV: bv8 := 0x20
  const MADCTL_BGR: bv8 := 0x08

  /** Rotation 0 (landscape): Y-mirror, X-Y exchange, BGR colour order. */
  const Rotation0: u8 := 0xA8

  /** COLMOD parameter for 16 bits per pixel. */
  const COLMOD_16BPP: u8 := 0x05

  /** The MADCTL parameter tft_init sends is the OR of exactly those three bits. */
  lemma Rotation0Bits()
    ensures Rotation0 as bv8 == MADCTL_MY | MADCTL_MV | MADCTL_BGR
    ensures Rotation0 as bv8 & MADCTL_MX == 0
  {
  }

  /** Gamma calibration for positive polarity (16 parameters of GMCTRP1). */
  const GammaPositive: seq<u8> :=
    [0x09, 0x16, 0x09, 0x20, 0x21, 0x1B, 0x13, 0x19, 0x17, 0x15, 0x1E, 0x2B, 0x04, 0x05, 0x02, 0x0E]

  /** Gamma calibration for negative polarity (16 parameters of GMCTRN1). */
  const GammaNegative: seq<u8> :=
    [0x0B, 0x14, 0x08, 0x1E, 0x22, 0x1D, 0x18, 0x1E, 0x1B, 0x1A, 0x24, 0x2B, 0x06, 0x06, 0x02, 0x0F]

  /** The start of tft_init in both drivers: the reset pulse, sleep out, the
      landscape rotation and 16-bit pixels. */
  const InitSetup: seq<Event> :=
    [Reset, Cmd(SLPOUT), Cmd(MADCTL), Data(Rotation0), Cmd(COLMOD), Data(COLMOD_16BPP)]

  /** The end of tft_init in both drivers: inversion on, normal mode, display on. */
  const InitFinish: seq<Event> := [Cmd(INVON), Cmd(NORON), Cmd(DISPON)]

  /** An address window: columns x0..x1 and rows y0..y1, in controller coordinates. */
  datatype Window = Window(x0: u16, y0: u16, x1: u16, y1: u16)

  /** tft_set_window with 16-bit coordinates: CASET x0 x1, RASET y0 y1, RAMWR,
      each coordinate one write_data_16. */
  function WindowEvents(w: Window): seq<Event>
  {
    [Cmd(CASET), Data16(w.x0), Data16(w.x1), Cmd(RASET), Data16(w.y0), Data16(w.y1), Cmd(RAMWR)]
  }

  /** The 11 bytes a window puts on the wire. */
  function WindowWire(w: Window): seq<WireByte>
  {
    [CommandByte(CASET), DataByte(Hi(w.x0)), DataByte(Lo(w.x0)), DataByte(Hi(w.x1)), DataByte(Lo(w.x1)),
     CommandByte(RASET), DataByte(Hi(w.y0)), DataByte(Lo(w.y0)), DataByte(Hi(w.y1)), DataByte(Lo(w.y1)),
     CommandByte(RAMWR)]
  }

  lemma WindowEventsWire(w: Window)
    ensures Flatten(WindowEvents(w)) == WindowWire(w)
  {
    FlattenSeven(Cmd(CASET), Data16(w.x0), Data16(w.x1), Cmd(RASET), Data16(w.y0), Data16(w.y1), Cmd(RAMWR));
    ElevenBytes(CommandByte(CASET), DataByte(Hi(w.x0)), DataByte(Lo(w.x0)), DataByte(Hi(w.x1)), DataByte(Lo(w.x1)),
                CommandByte(RASET), DataByte(Hi(w.y0)), DataByte(Lo(w.y0)), DataByte(Hi(w.y1)), DataByte(Lo(w.y1)),
                CommandByte(RAMWR));
  }

  /** A seven-event trace flattens event by event. */
  lemma FlattenSeven(e0: Event, e1: Event, e2: Event, e3: Event, e4: Event, e5: Event, e6: Event)
    ensures Flatten([e0, e1, e2, e3, e4, e5, e6])
            == Wire(e0) + Wire(e1) + Wire(e2) + Wire(e3) + Wire(e4) + Wire(e5) + Wire(e6)
  {
    var t := [e0, e1, e2, e3, e4, e5, e6];
    assert t == [e0] + [e1] + [e2] + [e3] + [e4] + [e5] + [e6];
    FlattenAppend([e0] + [e1] + [e2] + [e3] + [e4] + [e5], [e6]);
    FlattenAppend([e0] + [e1] + [e2] + [e3] + [e4], [e5]);
    FlattenAppend([e0] + [e1] + [e2] + [e3], [e4]);
    FlattenAppend([e0] + [e1] + [e2], [e3]);
    FlattenAppend([e0] + [e1], [e2]);
    FlattenAppend([e0], [e1]);
    FlattenSingle(e0); FlattenSingle(e1); FlattenSingle(e2); FlattenSingle(e3);
    FlattenSingle(e4); FlattenSingle(e5); FlattenSingle(e6);
  }

  lemma FlattenSingle(e: Event)
    ensures Flatten([e]) == Wire(e)
  {
    FlattenCons(e, []);
    assert [e] + [] == [e];
  }

  /** The bytes of a window command sequence, grouped as its events put them. */
  lemma ElevenBytes(b0: WireByte, b1: WireByte, b2: WireByte, b3: WireByte, b4: WireByte, b5: WireByte,
                    b6: WireByte, b7: WireByte, b8: WireByte, b9: WireByte, b10: WireByte)
    ensures [b0] + [b1, b2] + [b3, b4] + [b5] + [b6, b7] + [b8, b9] + [b10]
            == [b0, b1, b2, b3, b4, b5, b6, b7, b8, b9, b10]
  {
  }

  /** The controller's reading of the 11 bytes of a window command sequence. */
  function ParseWindow(f: seq<WireByte>): Option<Window>
  {
    if |f| == 11 && f[0] == CommandByte(CASET) && f[5] == CommandByte(RASET) && f[10] == CommandByte(RAMWR)
       && f[1].DataByte? && f[2].DataByte? && f[3].DataByte? && f[4].DataByte?
       && f[6].DataByte? && f[7].DataByte? && f[8].DataByte? && f[9].DataByte?
    then Some(Window(Word(f[1].b, f[2].b), Word(f[6].b, f[7].b),
                     Word(f[3].b, f[4].b), Word(f[8].b, f[9].b)))
    else None
  }

  /** The controller recovers exactly the window the driver meant to set. */
  lemma WindowRoundTrip(w: Window)
    ensures |Flatten(WindowEvents(w))| == 11
    ensures ParseWindow(Flatten(WindowEvents(w))) == Some(w)
  {
    WindowEventsWire(w);
    WordOfHiLo(w.x0);
    WordOfHiLo(w.x1);
    WordOfHiLo(w.y0);
    WordOfHiLo(w.y1);
  }

  /** A window followed by one block of pixel data: the controller reads the
      window from the first 11 bytes, and every byte after them is pixel data. */
  lemma WindowThenBlock(w: Window, bytes: seq<u8>)
    ensures var wire := Flatten(WindowEvents(w) + [Block(bytes, 1)]);
            && |wire| == 11 + |bytes|
            && ParseWindow(wire[..11]) == Some(w)
            && wire[11..] == DataBytes(bytes)
  {
    FlattenAppend(WindowEvents(w), [Block(bytes, 1)]);
    WindowRoundTrip(w);
    FlattenBlock(bytes, 1);
    assert Repeat(bytes, 1) == bytes;
    SplitAt(Flatten(WindowEvents(w)), DataBytes(bytes));
  }

  /** tft_set_window with `uint8_t` coordinates, one write_data_8 per byte:
      `v >> 8` then `v & 0xFF` for each of x0, x1, y0, y1. */
  function WindowEvents8(x0: u8, y0: u8, x1: u8, y1: u8): seq<Event>
  {
    [Cmd(CASET), Data(Hi(x0)), Data(Lo(x0)), Data(Hi(x1)), Data(Lo(x1)),
     Cmd(RASET), Data(Hi(y0)), Data(Lo(y0)), Data(Hi(y1)), Data(Lo(y1)),
     Cmd(RAMWR)]
  }

  lemma Window8Wire(x0: u8, y0: u8, x1: u8, y1: u8)
    ensures Flatten(WindowEvents8(x0, y0, x1, y1)) == WindowWire(Window(x0, y0, x1, y1))
  {
    FlattenSingles(WindowEvents8(x0, y0, x1, y1));
  }

  /** The byte-wise window of 8-bit coordinates sends 0x00 as every high byte and
      puts on the wire exactly the bytes of the 16-bit window of the same coordinates. */
  lemma Window8IsWindow16(x0: u8, y0: u8, x1: u8, y1: u8)
    ensures Flatten(WindowEvents8(x0, y0, x1, y1)) == Flatten(WindowEvents(Window(x0, y0, x1, y1)))
    ensures var f := WindowEvents8(x0, y0, x1, y1);
            f[1] == f[3] == f[6] == f[8] == Data(0)
  {
    Window8Wire(x0, y0, x1, y1);
    WindowEventsWire(Window(x0, y0, x1, y1));
  }
}
