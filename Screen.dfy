/** The controller at the other end of the wire, as far as the drivers drive
    it: CASET and RASET set the columns and rows of the address window from
    four parameter bytes each (start high, start low, end high, end low),
    RAMWR starts a memory write, and from then on every two data bytes, high
    byte first, are one pixel, stored row-major in the window until it is
    full. The frame is the controller's memory, addressed by column and row
    as CASET and RASET address it. */
module Screen {
  import opened Bits
  import opened Transport
  import opened Protocol
  import opened Raster
  import opened Panel

  /** The controller's memory: the colour of every cell written so far. */
  type Frame = map<Point, u16>

  /** What the controller remembers between bytes: the window, the command
      being received with the parameters seen so far, the pixels written since
      RAMWR and the high byte of a pixel still waiting for its low byte. */
  datatype Controller = Controller(window: Window, command: u8, params: seq<u8>,
                                   written: nat, high: Option<u8>, frame: Frame)

  /** The colour of one cell, if it was ever written. */
  function At(f: Frame, p: Point): Option<u16>
  {
    if p in f then Some(f[p]) else None
  }

  // ---------------------------------------------------------- window geometry

  /** The number of columns of a window; an end before the start opens none. */
  function Columns(w: Window): nat
  {
    if w.x0 <= w.x1 then w.x1 - w.x0 + 1 else 0
  }

  function Rows(w: Window): nat
  {
    if w.y0 <= w.y1 then w.y1 - w.y0 + 1 else 0
  }

  predicate InWindow(w: Window, p: Point)
  {
    w.x0 <= p.x <= w.x1 && w.y0 <= p.y <= w.y1
  }

  /** The cell that pixel k of a memory write lands on: row-major from the top-left corner. */
  function Cell(w: Window, k: nat): Point
    requires Columns(w) > 0
  {
    Point(w.x0 + k % Columns(w), w.y0 + k / Columns(w))
  }

  /** The position of a cell in the row-major order of a window. */
  function Index(w: Window, p: Point): int
  {
    (p.y - w.y0) * Columns(w) + (p.x - w.x0)
  }

  /** Pixel k of a memory write stored into the frame; pixels past the end of
      the window are dropped. */
  function Put(f: Frame, w: Window, k: nat, c: u16): Frame
  {
    if k < Columns(w) * Rows(w) then f[Cell(w, k) := c] else f
  }

  /** Pixels k, k + 1, ... of a memory write stored one after the other. */
  function Painted(f: Frame, w: Window, k: nat, colors: seq<u16>): Frame
    decreases |colors|
  {
    if colors == [] then f else Painted(Put(f, w, k, colors[0]), w, k + 1, colors[1..])
  }

  /** The cells of a w x h rectangle at (x, y), row by row. */
  function Cells(x: int, y: int, w: nat, h: nat): (r: seq<Point>)
    requires w > 0
    ensures |r| == w * h
  {
    seq(w * h, k requires 0 <= k < w * h => Point(x + k % w, y + k / w))
  }

  /** The window of a w x h area at (x, y) when no corner wraps. */
  function Area(x: int, y: int, w: int, h: int): Window
    requires 0 <= x + XOffset && x + w < 0x1_0000 && 0 <= y + YOffset && y + h + YOffset <= 0x1_0000
    requires 1 <= w && 1 <= h
  {
    Window(x + XOffset, y + YOffset, x + w, y + h + YOffset - 1)
  }

  // ---------------------------------------------------------- the controller

  /** The controller's reaction to one byte of the wire. */
  function Receive(s: Controller, b: WireByte): Controller
  {
    match b
    case CommandByte(op) => s.(command := op, params := [], written := 0, high := None)
    case DataByte(v) =>
      if s.command == CASET || s.command == RASET then Parameter(s, v)
      else if s.command == RAMWR then PixelByte(s, v)
      else s
  }

  /** A parameter of CASET or RASET: the fourth one completes the range. */
  function Parameter(s: Controller, v: u8): Controller
    requires s.command == CASET || s.command == RASET
  {
    var params := s.params + [v];
    if |params| != 4 then s.(params := params)
    else
      var first, last := Word(params[0], params[1]), Word(params[2], params[3]);
      var w := if s.command == CASET then s.window.(x0 := first, x1 := last)
               else s.window.(y0 := first, y1 := last);
      s.(window := w, params := params)
  }

  /** A data byte of a memory write: a high byte waits, a low byte completes a pixel. */
  function PixelByte(s: Controller, v: u8): Controller
  {
    if s.high.None? then s.(high := Some(v))
    else s.(high := None, written := s.written + 1,
            frame := Put(s.frame, s.window, s.written, Word(s.high.value, v)))
  }

  /** The controller after a whole stretch of the wire. */
  function Apply(s: Controller, wire: seq<WireByte>): Controller
    decreases |wire|
  {
    if wire == [] then s else Apply(Receive(s, wire[0]), wire[1..])
  }

  /** The window given by 11 window bytes, in a fresh memory write. */
  function Writing(s: Controller, w: Window): Controller
  {
    Controller(w, RAMWR, [], 0, None, s.frame)
  }

  // ---------------------------------------------------------- lemmas

  lemma {:induction false} ApplyAppend(s: Controller, a: seq<WireByte>, b: seq<WireByte>)
    ensures Apply(s, a + b) == Apply(Apply(s, a), b)
    decreases |a|
  {
    if a == [] {
      assert a + b == b;
    } else {
      assert (a + b)[0] == a[0] && (a + b)[1..] == a[1..] + b;
      ApplyAppend(Receive(s, a[0]), a[1..], b);
    }
  }

  /** A command byte and its four parameters set one side of the window. */
  lemma ApplyRange(s: Controller, op: u8, b0: u8, b1: u8, b2: u8, b3: u8)
    requires op == CASET || op == RASET
    ensures var t := Apply(s, [CommandByte(op), DataByte(b0), DataByte(b1), DataByte(b2), DataByte(b3)]);
            var first, last := Word(b0, b1), Word(b2, b3);
            && t.command == op && t.written == 0 && t.high.None? && t.frame == s.frame
            && t.window == if op == CASET then s.window.(x0 := first, x1 := last)
                           else s.window.(y0 := first, y1 := last)
  {
    var s1 := Receive(s, CommandByte(op));
    var s2 := Receive(s1, DataByte(b0));
    var s3 := Receive(s2, DataByte(b1));
    var s4 := Receive(s3, DataByte(b2));
    var s5 := Receive(s4, DataByte(b3));
    assert s4.params == [b0, b1, b2];
    ApplyCons(s, CommandByte(op), [DataByte(b0), DataByte(b1), DataByte(b2), DataByte(b3)]);
    ApplyCons(s1, DataByte(b0), [DataByte(b1), DataByte(b2), DataByte(b3)]);
    ApplyCons(s2, DataByte(b1), [DataByte(b2), DataByte(b3)]);
    ApplyCons(s3, DataByte(b2), [DataByte(b3)]);
    ApplyCons(s4, DataByte(b3), []);
  }

  lemma ApplyCons(s: Controller, b: WireByte, rest: seq<WireByte>)
    ensures Apply(s, [b] + rest) == Apply(Receive(s, b), rest)
  {
    assert ([b] + rest)[1..] == rest;
  }

  /** The 11 bytes of tft_set_window give the controller the window, whatever
      state it was in, and start a memory write; the frame is left as it was. */
  lemma WindowSets(s: Controller, w: Window)
    ensures Apply(s, WindowWire(w)) == Writing(s, w)
  {
    var col := [CommandByte(CASET), DataByte(Hi(w.x0)), DataByte(Lo(w.x0)), DataByte(Hi(w.x1)), DataByte(Lo(w.x1))];
    var row := [CommandByte(RASET), DataByte(Hi(w.y0)), DataByte(Lo(w.y0)), DataByte(Hi(w.y1)), DataByte(Lo(w.y1))];
    assert WindowWire(w) == col + row + [CommandByte(RAMWR)];
    ApplyAppend(s, col + row, [CommandByte(RAMWR)]);
    ApplyAppend(s, col, row);
    ApplyRange(s, CASET, Hi(w.x0), Lo(w.x0), Hi(w.x1), Lo(w.x1));
    ApplyRange(Apply(s, col), RASET, Hi(w.y0), Lo(w.y0), Hi(w.y1), Lo(w.y1));
    WordOfHiLo(w.x0); WordOfHiLo(w.x1); WordOfHiLo(w.y0); WordOfHiLo(w.y1);
    var t := Apply(Apply(s, col), row);
    assert Apply(t, [CommandByte(RAMWR)]) == Receive(t, CommandByte(RAMWR));
  }

  /** In a memory write, each pixel's two bytes store the pixel at the next cell. */
  lemma {:induction false} WriteRun(s: Controller, colors: seq<u16>)
    requires s.command == RAMWR && s.high.None?
    ensures Apply(s, DataBytes(Pack(colors)))
            == s.(written := s.written + |colors|, frame := Painted(s.frame, s.window, s.written, colors))
    decreases |colors|
  {
    if colors != [] {
      var c, rest := colors[0], colors[1..];
      assert [c] + rest == colors;
      PackCons(c, rest);
      DataBytesAppend([Hi(c), Lo(c)], Pack(rest));
      var two := DataBytes([Hi(c), Lo(c)]);
      assert two == [DataByte(Hi(c)), DataByte(Lo(c))];
      ApplyAppend(s, two, DataBytes(Pack(rest)));
      PixelBytes(s, c);
      WriteRun(s.(written := s.written + 1, frame := Put(s.frame, s.window, s.written, c)), rest);
    }
  }

  /** The two bytes of one pixel in a memory write. */
  lemma PixelBytes(s: Controller, c: u16)
    requires s.command == RAMWR && s.high.None?
    ensures Apply(s, [DataByte(Hi(c)), DataByte(Lo(c))])
            == s.(written := s.written + 1, frame := Put(s.frame, s.window, s.written, c))
  {
    ApplyCons(s, DataByte(Hi(c)), [DataByte(Lo(c))]);
    ApplyCons(Receive(s, DataByte(Hi(c))), DataByte(Lo(c)), []);
    WordOfHiLo(c);
  }

  /** Index and Cell are inverse on the window: pixel k of a write lands inside it. */
  lemma CellIndex(w: Window, k: nat)
    requires k < Columns(w) * Rows(w)
    ensures Columns(w) > 0 && InWindow(w, Cell(w, k)) && Index(w, Cell(w, k)) == k
  {
    var n, m := Columns(w), Rows(w);
    assert n > 0;
    var q, r := k / n, k % n;
    assert k == q * n + r && 0 <= r < n;
    if q >= m {
      MulMono(m, q, n);
    }
  }

  /** ... and every cell of the window is pixel Index of a write that fills it. */
  lemma IndexCell(w: Window, p: Point)
    requires InWindow(w, p)
    ensures 0 <= Index(w, p) < Columns(w) * Rows(w) && Cell(w, Index(w, p)) == p
  {
    var n, q, r := Columns(w), p.y - w.y0, p.x - w.x0;
    MulMono(q + 1, Rows(w), n);
    DivMod(q, r, n);
  }

  lemma MulMono(a: nat, b: nat, n: nat)
    requires a <= b
    ensures a * n <= b * n
  {
  }

  lemma DivMod(q: nat, r: nat, n: nat)
    requires r < n
    ensures (q * n + r) / n == q && (q * n + r) % n == r
  {
    var k := q * n + r;
    var d := k / n - q;
    assert k == (k / n) * n + k % n && 0 <= k % n < n;
    assert d * n == r - k % n;
    if d > 0 {
      MulMono(1, d, n);
    }
  }

  /** Storing pixel k changes exactly the cell whose index is k. */
  lemma PutAt(f: Frame, w: Window, k: nat, c: u16, p: Point)
    ensures At(Put(f, w, k, c), p) == if InWindow(w, p) && Index(w, p) == k then Some(c) else At(f, p)
  {
    if InWindow(w, p) {
      IndexCell(w, p);
    }
    if k < Columns(w) * Rows(w) {
      CellIndex(w, k);
    }
  }

  /** A memory write from pixel k on leaves cell p holding the pixel of its
      index, when that index was reached, and untouched otherwise. */
  lemma {:induction false} PaintedAt(f: Frame, w: Window, k: nat, colors: seq<u16>, p: Point)
    ensures At(Painted(f, w, k, colors), p)
            == if InWindow(w, p) && k <= Index(w, p) < k + |colors| then Some(colors[Index(w, p) - k])
               else At(f, p)
    decreases |colors|
  {
    if colors != [] {
      PaintedAt(Put(f, w, k, colors[0]), w, k + 1, colors[1..], p);
      PutAt(f, w, k, colors[0], p);
    }
  }

  /** A window and then a stream of pixels: the stream fills the window
      row-major, pixel i at the cell of index i, and no cell outside the
      window and past the end of the stream changes. */
  lemma WindowPaint(s: Controller, w: Window, colors: seq<u16>, p: Point)
    ensures At(Apply(s, WindowWire(w) + DataBytes(Pack(colors))).frame, p)
            == if InWindow(w, p) && 0 <= Index(w, p) < |colors| then Some(colors[Index(w, p)])
               else At(s.frame, p)
  {
    ApplyAppend(s, WindowWire(w), DataBytes(Pack(colors)));
    WindowSets(s, w);
    WriteRun(Writing(s, w), colors);
    PaintedAt(s.frame, w, 0, colors, p);
    if InWindow(w, p) {
      IndexCell(w, p);
    }
  }

  /** The wire of a window filled with one colour: the window, then one pixel per cell. */
  function SolidWire(w: Window, c: u16): seq<WireByte>
  {
    WindowWire(w) + DataBytes(Pack(Solid(c, Columns(w) * Rows(w))))
  }

  /** A window filled with one colour: every cell inside holds it, every cell
      outside is untouched. */
  lemma SolidPaint(s: Controller, w: Window, c: u16, p: Point)
    ensures At(Apply(s, SolidWire(w, c)).frame, p) == if InWindow(w, p) then Some(c) else At(s.frame, p)
  {
    WindowPaint(s, w, Solid(c, Columns(w) * Rows(w)), p);
    if InWindow(w, p) {
      IndexCell(w, p);
    }
  }

  /** tft_draw_pixel's bytes store the colour at that one cell and nowhere else. */
  lemma PixelPaint(s: Controller, x: u16, y: u16, c: u16)
    ensures Apply(s, WindowWire(Window(x, y, x, y)) + [DataByte(c / 0x100), DataByte(c % 0x100)]).frame
            == s.frame[Point(x, y) := c]
  {
    var w := Window(x, y, x, y);
    assert Pack([c]) == [Hi(c), Lo(c)];
    assert DataBytes(Pack([c])) == [DataByte(c / 0x100), DataByte(c % 0x100)];
    ApplyAppend(s, WindowWire(w), DataBytes(Pack([c])));
    WindowSets(s, w);
    WriteRun(Writing(s, w), [c]);
    assert Painted(s.frame, w, 0, [c]) == Put(s.frame, w, 0, c);
  }

  /** One colour stored at each of a sequence of cells, in order. */
  function Plot(f: Frame, cells: seq<Point>, c: u16): Frame
    decreases |cells|
  {
    if cells == [] then f else Plot(f[cells[0] := c], cells[1..], c)
  }

  /** After plotting, a cell holds the colour exactly when it is one of the cells. */
  lemma {:induction false} PlotAt(f: Frame, cells: seq<Point>, c: u16, p: Point)
    ensures At(Plot(f, cells, c), p) == if p in cells then Some(c) else At(f, p)
    decreases |cells|
  {
    if cells != [] {
      PlotAt(f[cells[0] := c], cells[1..], c, p);
      assert p in cells <==> p == cells[0] || p in cells[1..];
    }
  }

  /** Two frames that agree on every cell are the same frame. */
  lemma SameFrame(a: Frame, b: Frame)
    requires forall p :: At(a, p) == At(b, p)
    ensures a == b
  {
    forall p
      ensures p in a <==> p in b
      ensures p in a ==> a[p] == b[p]
    {
      assert At(a, p) == At(b, p);
    }
  }

  /** The cells of a window's outline: its first and last column and row. */
  predicate OnBorder(w: Window, p: Point)
  {
    InWindow(w, p) && (p.x == w.x0 || p.x == w.x1 || p.y == w.y0 || p.y == w.y1)
  }

  /** Equal edges make equal outlines. */
  lemma JoinEdges(t: seq<WireByte>, b: seq<WireByte>, l: seq<WireByte>, r: seq<WireByte>,
                  t': seq<WireByte>, b': seq<WireByte>, l': seq<WireByte>, r': seq<WireByte>)
    requires t == t' && b == b' && l == l' && r == r'
    ensures t + b + l + r == t' + b' + l' + r'
  {
  }

  /** Four one-cell-thick fills along the edges of a window: top, bottom, left, right. */
  function OutlineWire(w: Window, c: u16): seq<WireByte>
  {
    SolidWire(Window(w.x0, w.y0, w.x1, w.y0), c) + SolidWire(Window(w.x0, w.y1, w.x1, w.y1), c)
    + SolidWire(Window(w.x0, w.y0, w.x0, w.y1), c) + SolidWire(Window(w.x1, w.y0, w.x1, w.y1), c)
  }

  /** The four edge fills leave the outline holding the colour and every other
      cell, inside the window or outside it, untouched. */
  lemma OutlinePaint(s: Controller, w: Window, c: u16, p: Point)
    requires w.x0 <= w.x1 && w.y0 <= w.y1
    ensures At(Apply(s, OutlineWire(w, c)).frame, p) == if OnBorder(w, p) then Some(c) else At(s.frame, p)
  {
    var top, bottom := Window(w.x0, w.y0, w.x1, w.y0), Window(w.x0, w.y1, w.x1, w.y1);
    var left, right := Window(w.x0, w.y0, w.x0, w.y1), Window(w.x1, w.y0, w.x1, w.y1);
    var a, b, l, r := SolidWire(top, c), SolidWire(bottom, c), SolidWire(left, c), SolidWire(right, c);
    ApplyAppend(s, a + b + l, r);
    ApplyAppend(s, a + b, l);
    ApplyAppend(s, a, b);
    var s1 := Apply(s, a);
    var s2 := Apply(s1, b);
    var s3 := Apply(s2, l);
    SolidPaint(s, top, c, p);
    SolidPaint(s1, bottom, c, p);
    SolidPaint(s2, left, c, p);
    SolidPaint(s3, right, c, p);
  }
}
