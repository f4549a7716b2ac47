/** Pure rasterisation logic shared by both drivers: glyph expansion from the
    5x7 font, NUL-terminated strings, decimal text of an `int32_t`, and the
    points of Bresenham's line algorithm. */
module Raster {
  import opened Bits

  const FontWidth: nat := 5
  const FontHeight: nat := 7

  // ---------------------------------------------------------------- glyphs

  /** The 5x7 font table: five column bytes for each of the 256 character codes,
      the glyph of code c at 5c .. 5c+4. */
  type Font = f: seq<u8> | |f| == 256 * 5 witness seq(256 * 5, _ => 0)

  /** Bit `i` of `b`, counting from the least significant: `b & (1 << i)` is non-zero. */
  predicate Bit(b: nat, i: nat)
  {
    if i == 0 then b % 2 == 1 else Bit(b / 2, i - 1)
  }

  /** `font[5c + col] & (1 << row)`: each glyph byte is one column, bit `row` its pixel. */
  predicate GlyphBit(font: Font, c: u8, row: nat, col: nat)
    requires row < FontHeight && col < FontWidth
  {
    Bit(font[5 * c + col], row)
  }

  /** The 35 pixel colours of a glyph in row-major order (the order of the
      controller's window): foreground where the font bit is set, background elsewhere. */
  function GlyphColors(font: Font, c: u8, fg: u16, bg: u16): (r: seq<u16>)
    ensures |r| == FontWidth * FontHeight
  {
    seq(35, k requires 0 <= k < 35 =>
      if GlyphBit(font, c, k / 5, k % 5) then fg else bg)
  }

  /** The pixel at row `row`, column `col` of a glyph is the foreground colour
      exactly when bit `row` of the glyph's column byte `col` is set. */
  lemma GlyphPixel(font: Font, c: u8, fg: u16, bg: u16, row: nat, col: nat)
    requires row < FontHeight && col < FontWidth
    ensures GlyphColors(font, c, fg, bg)[5 * row + col] == if GlyphBit(font, c, row, col) then fg else bg
  {
    assert (5 * row + col) / 5 == row && (5 * row + col) % 5 == col;
  }

  // ------------------------------------------------------------ C strings

  /** The characters of a NUL-terminated string, up to and without the terminator. */
  function CString(mem: seq<u8>): (s: seq<u8>)
    requires 0 in mem
    ensures |s| < |mem| && mem[..|s|] == s && mem[|s|] == 0
    ensures 0 !in s
  {
    if mem[0] == 0 then [] else [mem[0]] + CString(mem[1..])
  }

  lemma {:induction false} CStringOfTerminated(text: seq<u8>, rest: seq<u8>)
    requires 0 !in text
    ensures 0 in text + [0] + rest
    ensures CString(text + [0] + rest) == text
  {
    var mem := text + [0] + rest;
    assert mem[|text|] == 0;
    if text != [] {
      assert mem[0] == text[0];
      assert mem[1..] == text[1..] + [0] + rest;
      CStringOfTerminated(text[1..], rest);
      assert [text[0]] + text[1..] == text;
    }
  }

  // --------------------------------------------------------- decimal text

  const Minus: u8 := 0x2D  // '-'
  const Zero: u8 := 0x30   // '0'
  const Space: u8 := 0x20  // ' '

  const Int32Min: int := -0x8000_0000
  const Int32Max: int := 0x7FFF_FFFF

  function Abs(n: int): nat { if n < 0 then -n else n }

  function Pow10(k: nat): (p: nat)
    ensures p >= 1
  {
    if k == 0 then 1 else 10 * Pow10(k - 1)
  }

  /** What `while (num) { str[--pos] = num % 10 + '0'; num /= 10; }` leaves
      in front of position `pos`: the digits of n, most significant first,
      and nothing at all for 0. */
  function LoopDigits(n: nat): (s: seq<u8>)
    ensures forall k :: 0 <= k < |s| ==> Zero <= s[k] <= Zero + 9
    ensures n > 0 <==> |s| > 0
  {
    if n == 0 then [] else LoopDigits(n / 10) + [Zero + n % 10]
  }

  /** The digits printed for a magnitude: "0" for zero (the special case after the loop). */
  function Decimal(n: nat): (s: seq<u8>)
    ensures 1 <= |s|
    ensures forall k :: 0 <= k < |s| ==> Zero <= s[k] <= Zero + 9
    ensures s[0] == Zero <==> n == 0
  {
    if n == 0 then [Zero] else LeadingDigitNonZero(n); LoopDigits(n)
  }

  lemma {:induction false} LeadingDigitNonZero(n: nat)
    requires n > 0
    ensures LoopDigits(n)[0] != Zero
  {
    if n >= 10 {
      LeadingDigitNonZero(n / 10);
    }
  }

  lemma {:induction false} LoopDigitsLength(n: nat, k: nat)
    requires n < Pow10(k)
    ensures |LoopDigits(n)| <= k
  {
    if n > 0 {
      LoopDigitsLength(n / 10, k - 1);
    }
  }

  /** The text of tft_print_number before any alignment: a '-' for negative
      numbers, then the decimal digits of the magnitude. */
  function NumberText(num: int): (s: seq<u8>)
    requires Int32Min < num <= Int32Max
    ensures 1 <= |s| <= 11
    ensures (s[0] == Minus) <==> num < 0
    ensures 0 !in s
  {
    LoopDigitsLength(Abs(num), 10);
    (if num < 0 then [Minus] else []) + Decimal(Abs(num))
  }

  /** The magnitude of an `int32_t` above the minimum has at most ten digits. */
  lemma Int32Digits(num: int)
    requires Int32Min < num <= Int32Max
    ensures |LoopDigits(Abs(num))| <= 10
  {
    LoopDigitsLength(Abs(num), 10);
  }

  /** NumberText in terms of what the digit loop leaves: a sign, then the loop's
      digits or, when the loop wrote none, a single '0'. */
  lemma NumberTextOfLoop(num: int, written: seq<u8>)
    requires Int32Min < num <= Int32Max && written == LoopDigits(Abs(num))
    ensures NumberText(num) == (if num < 0 then [Minus] else []) + (if written == [] then [Zero] else written)
  {
  }

  /** The value a reader assigns to a string of decimal digits. */
  function DigitsValue(s: seq<u8>): int
  {
    if s == [] then 0 else 10 * DigitsValue(s[..|s| - 1]) + (s[|s| - 1] - Zero)
  }

  function ParseNumber(s: seq<u8>): int
  {
    if s != [] && s[0] == Minus then -DigitsValue(s[1..]) else DigitsValue(s)
  }

  lemma {:induction false} LoopDigitsValue(n: nat)
    ensures DigitsValue(LoopDigits(n)) == n
  {
    if n > 0 {
      var s := LoopDigits(n);
      assert s[..|s| - 1] == LoopDigits(n / 10);
      LoopDigitsValue(n / 10);
    }
  }

  /** Reading the printed text back gives the number printed. */
  lemma NumberTextRoundTrip(num: int)
    requires Int32Min < num <= Int32Max
    ensures ParseNumber(NumberText(num)) == num
  {
    var d := Decimal(Abs(num));
    if Abs(num) > 0 {
      LoopDigitsValue(Abs(num));
    }
    assert DigitsValue(d) == Abs(num);
    if num < 0 {
      assert NumberText(num)[1..] == d;
    } else {
      assert NumberText(num) == d;
    }
  }

  function Spaces(n: nat): (s: seq<u8>)
    ensures |s| == n && forall k :: 0 <= k < n ==> s[k] == Space
  {
    seq(n, _ => Space)
  }

  /** The 11 characters the 8-bit driver prints for a number: the text right
      aligned behind leading spaces. */
  function PaddedNumberText(num: int): (s: seq<u8>)
    requires Int32Min < num <= Int32Max
    ensures |s| == 11 && 0 !in s
  {
    Spaces(11 - |NumberText(num)|) + NumberText(num)
  }

  /** A reader skipping leading spaces. */
  function TrimSpaces(s: seq<u8>): seq<u8>
  {
    if s != [] && s[0] == Space then TrimSpaces(s[1..]) else s
  }

  lemma {:induction false} TrimSpacesOf(k: nat, text: seq<u8>)
    requires text == [] || text[0] != Space
    ensures TrimSpaces(Spaces(k) + text) == text
  {
    if k == 0 {
      assert Spaces(k) + text == text;
    } else {
      assert (Spaces(k) + text)[1..] == Spaces(k - 1) + text;
      TrimSpacesOf(k - 1, text);
    }
  }

  /** Reading the padded text back, spaces skipped, gives the number printed;
      the text sits in the last |NumberText| of the 11 cells. */
  lemma PaddedNumberRoundTrip(num: int)
    requires Int32Min < num <= Int32Max
    ensures var s, n := PaddedNumberText(num), |NumberText(num)|;
            && s[11 - n..] == NumberText(num)
            && (forall k :: 0 <= k < 11 - n ==> s[k] == Space)
            && ParseNumber(TrimSpaces(s)) == num
  {
    var text := NumberText(num);
    assert text[0] != Space;
    TrimSpacesOf(11 - |text|, text);
    NumberTextRoundTrip(num);
  }

  // ---------------------------------------------------------------- lines

  datatype Point = Point(x: int, y: int)

  /** `_diff(a, b)`: the distance between two coordinates. */
  function Diff(a: int, b: int): nat
  {
    if a > b then a - b else b - a
  }

  /** A point given by its major and minor coordinate. */
  function Orient(major: int, minor: int, steep: bool): Point
  {
    if steep then Point(minor, major) else Point(major, minor)
  }

  /** The points the Bresenham loop plots from major coordinate x to x1, with
      minor coordinate y and error term err: plot, then `err -= dy`, and when
      `err` drops below zero, `err += dx` and y moves one step. */
  function Run(x: int, x1: int, y: int, err: int, dx: int, dy: int, step: int, steep: bool): seq<Point>
    decreases x1 + 1 - x
  {
    if x > x1 then []
    else
      var p := Orient(x, y, steep);
      if err - dy < 0 then [p] + Run(x + 1, x1, y + step, err - dy + dx, dx, dy, step, steep)
      else [p] + Run(x + 1, x1, y, err - dy, dx, dy, step, steep)
  }

  /** The line is steep when it rises more than it runs; x and y then swap roles. */
  predicate Steep(x0: int, y0: int, x1: int, y1: int)
  {
    Diff(y1, y0) > Diff(x1, x0)
  }

  /** The normalised endpoints: major axis first, ordered so the major coordinate increases. */
  function Normalise(x0: int, y0: int, x1: int, y1: int): (int, int, int, int)
  {
    var steep := Steep(x0, y0, x1, y1);
    var (a0, b0, a1, b1) := if steep then (y0, x0, y1, x1) else (x0, y0, x1, y1);
    if a0 > a1 then (a1, b1, a0, b0) else (a0, b0, a1, b1)
  }

  /** The points `_tft_draw_line_bresenham(x0, y0, x1, y1)` plots, in plotting order. */
  function LinePoints(x0: int, y0: int, x1: int, y1: int): seq<Point>
  {
    var steep := Steep(x0, y0, x1, y1);
    var (s0, t0, s1, t1) := Normalise(x0, y0, x1, y1);
    var dx := s1 - s0;
    Run(s0, s1, t0, dx / 2, dx, Diff(t1, t0), if t0 < t1 then 1 else -1, steep)
  }

  /** LinePoints from endpoints already normalised and the run's parameters derived from them. */
  lemma LinePointsFrom(x0: int, y0: int, x1: int, y1: int, a0: int, b0: int, a1: int, b1: int,
                       err: int, dx: int, dy: int, step: int, steep: bool)
    requires (a0, b0, a1, b1) == Normalise(x0, y0, x1, y1) && steep == Steep(x0, y0, x1, y1)
    requires dx == a1 - a0 && err == dx / 2 && dy == Diff(b1, b0) && step == (if b0 < b1 then 1 else -1)
    ensures LinePoints(x0, y0, x1, y1) == Run(a0, a1, b0, err, dx, dy, step, steep)
  {
  }

  lemma ZeroMultiple(m: int, d: int)
    requires d > 0 && -d < m * d < d
    ensures m == 0
  {
  }

  function MajorOf(p: Point, steep: bool): int
  {
    if steep then p.y else p.x
  }

  function MinorOf(p: Point, steep: bool): int
  {
    if steep then p.x else p.y
  }

  lemma {:induction false} RunLength(x: int, x1: int, y: int, err: int, dx: int, dy: int,
                                     step: int, steep: bool)
    ensures |Run(x, x1, y, err, dx, dy, step, steep)| == if x > x1 then 0 else x1 - x + 1
    decreases x1 + 1 - x
  {
    if x <= x1 {
      if err - dy < 0 {
        RunLength(x + 1, x1, y + step, err - dy + dx, dx, dy, step, steep);
      } else {
        RunLength(x + 1, x1, y, err - dy, dx, dy, step, steep);
      }
    }
  }

  /** Point k of a run sits at major coordinate x + k, and the minor coordinate
      of the next point is the same or one step further. */
  lemma {:induction false} RunPoint(x: int, x1: int, y: int, err: int, dx: int, dy: int,
                                    step: int, steep: bool, k: nat)
    requires k < |Run(x, x1, y, err, dx, dy, step, steep)|
    ensures var pts := Run(x, x1, y, err, dx, dy, step, steep);
            && pts[k] == Orient(x + k, MinorOf(pts[k], steep), steep)
            && (k + 1 < |pts| ==> MinorOf(pts[k + 1], steep) - MinorOf(pts[k], steep) in {0, step})
    decreases x1 + 1 - x
  {
    var pts := Run(x, x1, y, err, dx, dy, step, steep);
    var y' := if err - dy < 0 then y + step else y;
    var err' := if err - dy < 0 then err - dy + dx else err - dy;
    var rest := Run(x + 1, x1, y', err', dx, dy, step, steep);
    assert pts == [Orient(x, y, steep)] + rest;
    if k == 0 {
      if 1 < |pts| {
        RunPoint(x + 1, x1, y', err', dx, dy, step, steep, 0);
      }
    } else {
      RunPoint(x + 1, x1, y', err', dx, dy, step, steep, k - 1);
    }
  }

  /** The last point of a run: with m the remaining minor distance, tied to the
      error term by (x1 - x) * dy - m * dx == err - e0, the run ends at minor
      coordinate y + step * m. */
  lemma {:induction false} RunEnd(x: int, x1: int, y: int, err: int, dx: int, dy: int,
                                  step: int, steep: bool, m: int, e0: int)
    requires x <= x1
    requires 0 <= dy <= dx && 0 <= err < dx && 0 <= e0 < dx
    requires step == 1 || step == -1
    requires (x1 - x) * dy - m * dx == err - e0
    ensures var pts := Run(x, x1, y, err, dx, dy, step, steep);
            |pts| > 0 && pts[|pts| - 1] == Orient(x1, y + step * m, steep)
    decreases x1 - x
  {
    var pts := Run(x, x1, y, err, dx, dy, step, steep);
    if x == x1 {
      NoMinorLeft(x1 - x, m, dx, dy, err, e0);
      assert pts == [Orient(x, y, steep)];
    } else if err - dy < 0 {
      ErrorStep(x, x1, m, dx, dy, err, e0, step, y);
      var rest := Run(x + 1, x1, y + step, err - dy + dx, dx, dy, step, steep);
      assert pts == [Orient(x, y, steep)] + rest;
      RunEnd(x + 1, x1, y + step, err - dy + dx, dx, dy, step, steep, m - 1, e0);
      assert pts[|pts| - 1] == rest[|rest| - 1];
    } else {
      ErrorStep(x, x1, m, dx, dy, err, e0, step, y);
      var rest := Run(x + 1, x1, y, err - dy, dx, dy, step, steep);
      assert pts == [Orient(x, y, steep)] + rest;
      RunEnd(x + 1, x1, y, err - dy, dx, dy, step, steep, m, e0);
      assert pts[|pts| - 1] == rest[|rest| - 1];
    }
  }

  /** At the last column the error relation leaves no minor distance to cover. */
  lemma NoMinorLeft(r: int, m: int, dx: int, dy: int, err: int, e0: int)
    requires r == 0 && 0 <= err < dx && 0 <= e0 < dx
    requires r * dy - m * dx == err - e0
    ensures m == 0
  {
    assert m * dx == e0 - err;
    ZeroMultiple(m, dx);
  }

  /** One loop step keeps (x1 - x) * dy - m * dx == err - e0, whether or not y moves. */
  lemma ErrorStep(x: int, x1: int, m: int, dx: int, dy: int, err: int, e0: int, step: int, y: int)
    requires (x1 - x) * dy - m * dx == err - e0
    ensures (x1 - (x + 1)) * dy - m * dx == (err - dy) - e0
    ensures (x1 - (x + 1)) * dy - (m - 1) * dx == (err - dy + dx) - e0
    ensures (y + step) + step * (m - 1) == y + step * m
  {
    assert (x1 - (x + 1)) * dy == (x1 - x) * dy - dy;
    assert (m - 1) * dx == m * dx - dx;
    assert step * (m - 1) == step * m - step;
  }

  /** Bresenham plots one point per unit of the major axis, from one endpoint to
      the other, and the minor coordinate changes by at most one between
      consecutive points while the major coordinate advances by exactly one. */
  lemma LinePointsShape(x0: int, y0: int, x1: int, y1: int)
    ensures var pts := LinePoints(x0, y0, x1, y1);
            && |pts| == (if Steep(x0, y0, x1, y1) then Diff(y1, y0) else Diff(x1, x0)) + 1
            && ((pts[0] == Point(x0, y0) && pts[|pts| - 1] == Point(x1, y1)) ||
                (pts[0] == Point(x1, y1) && pts[|pts| - 1] == Point(x0, y0)))
            && forall k :: 0 <= k < |pts| - 1 ==> Neighbours(pts[k], pts[k + 1], Steep(x0, y0, x1, y1))
  {
    var steep := Steep(x0, y0, x1, y1);
    var (s0, t0, s1, t1) := Normalise(x0, y0, x1, y1);
    var dx, dy := s1 - s0, Diff(t1, t0);
    var step := if t0 < t1 then 1 else -1;
    var err := dx / 2;
    NormaliseEnds(x0, y0, x1, y1);
    LinePointsFrom(x0, y0, x1, y1, s0, t0, s1, t1, err, dx, dy, step, steep);
    RunLength(s0, s1, t0, err, dx, dy, step, steep);
    RunEnds(s0, s1, t0, t1, steep);
    RunNeighbours(s0, s1, t0, err, dx, dy, step, steep);
  }

  /** The normalised endpoints are the original ones, possibly swapped, with the
      major coordinate increasing by at least the minor distance. */
  lemma NormaliseEnds(x0: int, y0: int, x1: int, y1: int)
    ensures var steep := Steep(x0, y0, x1, y1);
            var (s0, t0, s1, t1) := Normalise(x0, y0, x1, y1);
            && s1 - s0 == (if steep then Diff(y1, y0) else Diff(x1, x0)) >= Diff(t1, t0)
            && ((Orient(s0, t0, steep) == Point(x0, y0) && Orient(s1, t1, steep) == Point(x1, y1)) ||
                (Orient(s0, t0, steep) == Point(x1, y1) && Orient(s1, t1, steep) == Point(x0, y0)))
  {
  }

  /** A run started with half the major distance as error term goes from
      (s0, t0) to (s1, t1). */
  lemma RunEnds(s0: int, s1: int, t0: int, t1: int, steep: bool)
    requires s1 - s0 >= Diff(t1, t0)
    ensures var pts := Run(s0, s1, t0, (s1 - s0) / 2, s1 - s0, Diff(t1, t0), if t0 < t1 then 1 else -1, steep);
            |pts| > 0 && pts[0] == Orient(s0, t0, steep) && pts[|pts| - 1] == Orient(s1, t1, steep)
  {
    var dx, dy := s1 - s0, Diff(t1, t0);
    var step := if t0 < t1 then 1 else -1;
    var pts := Run(s0, s1, t0, dx / 2, dx, dy, step, steep);
    if dx == 0 {
      assert t1 == t0;
    } else {
      assert dx * dy - dy * dx == dx / 2 - dx / 2;
      RunEnd(s0, s1, t0, dx / 2, dx, dy, step, steep, dy, dx / 2);
      assert t0 + step * dy == t1;
    }
  }

  /** Consecutive points of a run are neighbours along the major axis. */
  lemma RunNeighbours(x: int, x1: int, y: int, err: int, dx: int, dy: int, step: int, steep: bool)
    requires step == 1 || step == -1
    ensures var pts := Run(x, x1, y, err, dx, dy, step, steep);
            forall k :: 0 <= k < |pts| - 1 ==> Neighbours(pts[k], pts[k + 1], steep)
  {
    var pts := Run(x, x1, y, err, dx, dy, step, steep);
    forall k | 0 <= k < |pts| - 1 ensures Neighbours(pts[k], pts[k + 1], steep) {
      RunPoint(x, x1, y, err, dx, dy, step, steep, k);
      RunPoint(x, x1, y, err, dx, dy, step, steep, k + 1);
    }
  }

  /** Consecutive points: the major coordinate advances by one, the minor one by at most one. */
  predicate Neighbours(p: Point, q: Point, steep: bool)
  {
    if steep then q.y == p.y + 1 && Diff(q.x, p.x) <= 1
    else q.x == p.x + 1 && Diff(q.y, p.y) <= 1
  }

  /** `v` lies between a and b, in either order. */
  predicate Between(v: int, a: int, b: int)
  {
    (a <= v <= b) || (b <= v <= a)
  }

  /** The minor coordinate never moves against the step: point k is on the
      step's side of the first point. */
  lemma {:induction false} MinorFromStart(x: int, x1: int, y: int, err: int, dx: int, dy: int,
                                          step: int, steep: bool, k: nat)
    requires k < |Run(x, x1, y, err, dx, dy, step, steep)|
    ensures var pts := Run(x, x1, y, err, dx, dy, step, steep);
            (MinorOf(pts[k], steep) - MinorOf(pts[0], steep)) * step >= 0
  {
    if k > 0 {
      MinorFromStart(x, x1, y, err, dx, dy, step, steep, k - 1);
      RunPoint(x, x1, y, err, dx, dy, step, steep, k - 1);
    }
  }

  /** ... and the last point is on the step's side of point k. */
  lemma {:induction false} MinorToEnd(x: int, x1: int, y: int, err: int, dx: int, dy: int,
                                      step: int, steep: bool, k: nat)
    requires k < |Run(x, x1, y, err, dx, dy, step, steep)|
    ensures var pts := Run(x, x1, y, err, dx, dy, step, steep);
            (MinorOf(pts[|pts| - 1], steep) - MinorOf(pts[k], steep)) * step >= 0
    decreases |Run(x, x1, y, err, dx, dy, step, steep)| - k
  {
    var pts := Run(x, x1, y, err, dx, dy, step, steep);
    if k + 1 < |pts| {
      MinorToEnd(x, x1, y, err, dx, dy, step, steep, k + 1);
      RunPoint(x, x1, y, err, dx, dy, step, steep, k);
    }
  }

  /** Every point of a run from (s0, t0) to (s1, t1) lies between them on both axes. */
  lemma RunInBox(s0: int, s1: int, t0: int, t1: int, steep: bool, k: nat)
    requires s1 - s0 >= Diff(t1, t0)
    requires k < |Run(s0, s1, t0, (s1 - s0) / 2, s1 - s0, Diff(t1, t0), if t0 < t1 then 1 else -1, steep)|
    ensures var pts := Run(s0, s1, t0, (s1 - s0) / 2, s1 - s0, Diff(t1, t0), if t0 < t1 then 1 else -1, steep);
            s0 <= MajorOf(pts[k], steep) <= s1 && Between(MinorOf(pts[k], steep), t0, t1)
  {
    var dx, dy := s1 - s0, Diff(t1, t0);
    var step := if t0 < t1 then 1 else -1;
    RunLength(s0, s1, t0, dx / 2, dx, dy, step, steep);
    RunEnds(s0, s1, t0, t1, steep);
    RunPoint(s0, s1, t0, dx / 2, dx, dy, step, steep, k);
    MinorFromStart(s0, s1, t0, dx / 2, dx, dy, step, steep, k);
    MinorToEnd(s0, s1, t0, dx / 2, dx, dy, step, steep, k);
  }

  /** The major coordinates the loop `for (; x0 <= x1; x0++)` visits in its
      first `turns` turns when the counter is an `int16_t`, as in the drivers:
      `x0++` stores 32767 + 1 back as -32768. */
  function Int16Majors(x: int, x1: int, turns: nat): seq<int>
    decreases turns
  {
    if turns == 0 || x > x1 then [] else [x] + Int16Majors(I16(x + 1), x1, turns - 1)
  }

  /** With the far end at 32767 the `int16_t` counter never passes it: the loop
      takes every turn it is given, so it never ends. */
  lemma {:induction false} MajorLoopNeverEnds(x: int, turns: nat)
    requires IsI16(x)
    ensures |Int16Majors(x, 0x7FFF, turns)| == turns
    decreases turns
  {
    if turns > 0 {
      MajorLoopNeverEnds(I16(x + 1), turns - 1);
    }
  }

  /** The line from (32766, 0) to (32767, 1) has two points, but the loop as
      written goes on from 32767 to -32768. */
  lemma LastColumnLineHangs()
    ensures |LinePoints(0x7FFE, 0, 0x7FFF, 1)| == 2
    ensures Int16Majors(0x7FFE, 0x7FFF, 3) == [0x7FFE, 0x7FFF, -0x8000]
  {
    LinePointsShape(0x7FFE, 0, 0x7FFF, 1);
  }

  /** Every point Bresenham plots lies in the box spanned by the two endpoints. */
  lemma LinePointsInBox(x0: int, y0: int, x1: int, y1: int)
    ensures var pts := LinePoints(x0, y0, x1, y1);
            forall k :: 0 <= k < |pts| ==> Between(pts[k].x, x0, x1) && Between(pts[k].y, y0, y1)
  {
    var steep := Steep(x0, y0, x1, y1);
    var (s0, t0, s1, t1) := Normalise(x0, y0, x1, y1);
    var pts := LinePoints(x0, y0, x1, y1);
    assert pts == Run(s0, s1, t0, (s1 - s0) / 2, s1 - s0, Diff(t1, t0), if t0 < t1 then 1 else -1, steep);
    NormaliseEnds(x0, y0, x1, y1);
    forall k | 0 <= k < |pts|
      ensures Between(pts[k].x, x0, x1) && Between(pts[k].y, y0, y1)
    {
      RunInBox(s0, s1, t0, t1, steep, k);
    }
  }

  /** The 45-degree diagonal from (0,0) to (3,3) is plotted exactly. */
  lemma DiagonalExample()
    ensures LinePoints(0, 0, 3, 3) == [Point(0, 0), Point(1, 1), Point(2, 2), Point(3, 3)]
  {
  }
}
