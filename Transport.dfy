/** The SPI transport as the panel sees it. Every send of the driver becomes
    one event of a trace; `Flatten` turns a trace into the bytes on the wire,
    each tagged with the level of the data/command (DC) line. */
module Transport {
  import opened Bits

  datatype Event =
    | Reset                               // reset line pulsed low, then high
    | Cmd(op: u8)                         // write_command_8: DC low, one byte
    | Data(val: u8)                       // write_data_8: DC high, one byte
    | Data16(word: u16)                   // write_data_16: DC high, `word >> 8` then the low byte
    | Block(bytes: seq<u8>, repeat: nat)  // SPI_send_DMA: DC high, `bytes` sent `repeat` times

  /** One byte on the wire together with the DC level it was sent under. */
  datatype WireByte = CommandByte(b: u8) | DataByte(b: u8)

  /** `bytes` concatenated `n` times: what a circular DMA block puts on the wire. */
  function Repeat(bytes: seq<u8>, n: nat): seq<u8>
  {
    if n == 0 then [] else bytes + Repeat(bytes, n - 1)
  }

  lemma {:induction false} RepeatLength(bytes: seq<u8>, n: nat)
    ensures |Repeat(bytes, n)| == |bytes| * n
  {
    if n > 0 {
      RepeatLength(bytes, n - 1);
      assert |bytes| * n == |bytes| + |bytes| * (n - 1);
    }
  }

  function DataBytes(bytes: seq<u8>): seq<WireByte>
  {
    seq(|bytes|, i requires 0 <= i < |bytes| => DataByte(bytes[i]))
  }

  lemma DataBytesAppend(a: seq<u8>, b: seq<u8>)
    ensures DataBytes(a + b) == DataBytes(a) + DataBytes(b)
  {
  }

  lemma AppendAssoc<T>(a: seq<T>, b: seq<T>, c: seq<T>)
    ensures a + b + c == a + (b + c)
  {
  }

  lemma AppendFour<T>(t: seq<T>, a: seq<T>, b: seq<T>, c: seq<T>, d: seq<T>)
    ensures t + a + b + c + d == t + (a + b + c + d)
  {
  }

  lemma SplitAt<T>(a: seq<T>, b: seq<T>)
    ensures (a + b)[..|a|] == a && (a + b)[|a|..] == b
  {
  }

  /** write_data_16 sends `v >> 8` and then the low byte, both as data, and the
      controller reads the two back as v. */
  lemma Data16Wire(v: u16)
    ensures Flatten([Data16(v)]) == [DataByte(v / 0x100), DataByte(v % 0x100)]
    ensures var w := Flatten([Data16(v)]); Word(w[0].b, w[1].b) == v
  {
    FlattenCons(Data16(v), []);
    assert [Data16(v)] + [] == [Data16(v)];
    WordOfHiLo(v);
  }

  /** The wire bytes of a single event. */
  function Wire(e: Event): seq<WireByte>
  {
    match e
    case Reset => []
    case Cmd(op) => [CommandByte(op)]
    case Data(v) => [DataByte(v)]
    case Data16(v) => [DataByte(Hi(v)), DataByte(Lo(v))]
    case Block(bytes, n) => DataBytes(Repeat(bytes, n))
  }

  /** The wire bytes of a whole trace, in order. */
  function Flatten(trace: seq<Event>): seq<WireByte>
  {
    if trace == [] then [] else Wire(trace[0]) + Flatten(trace[1..])
  }

  lemma FlattenCons(e: Event, rest: seq<Event>)
    ensures Flatten([e] + rest) == Wire(e) + Flatten(rest)
  {
    assert ([e] + rest)[1..] == rest;
  }

  /** The wire byte of a one-byte event. */
  function Single(e: Event): WireByte
    requires e.Cmd? || e.Data?
  {
    if e.Cmd? then CommandByte(e.op) else DataByte(e.val)
  }

  /** A trace of one-byte events puts one wire byte per event on the wire. */
  lemma {:induction false} FlattenSingles(f: seq<Event>)
    requires forall i :: 0 <= i < |f| ==> f[i].Cmd? || f[i].Data?
    ensures Flatten(f) == seq(|f|, i requires 0 <= i < |f| => Single(f[i]))
  {
    if f != [] {
      FlattenSingles(f[1..]);
    }
  }

  lemma {:induction false} FlattenAppend(a: seq<Event>, b: seq<Event>)
    ensures Flatten(a + b) == Flatten(a) + Flatten(b)
  {
    if a == [] {
      assert a + b == b;
    } else {
      assert (a + b)[0] == a[0];
      assert (a + b)[1..] == a[1..] + b;
      FlattenAppend(a[1..], b);
    }
  }

  /** The wire bytes of four traces sent one after the other. */
  lemma FlattenFour(a: seq<Event>, b: seq<Event>, c: seq<Event>, d: seq<Event>)
    ensures Flatten(a + b + c + d) == Flatten(a) + Flatten(b) + Flatten(c) + Flatten(d)
  {
    FlattenAppend(a + b + c, d);
    FlattenAppend(a + b, c);
    FlattenAppend(a, b);
  }

  /** The wire bytes of a one-event trace holding a block. */
  lemma FlattenBlock(bytes: seq<u8>, n: nat)
    ensures Flatten([Block(bytes, n)]) == DataBytes(Repeat(bytes, n))
  {
    FlattenCons(Block(bytes, n), []);
    assert [Block(bytes, n)] + [] == [Block(bytes, n)];
  }

  /** 16-bit colours packed big-endian into bytes, as the driver stages them. */
  function Pack(colors: seq<u16>): (r: seq<u8>)
    ensures |r| == 2 * |colors|
  {
    seq(2 * |colors|, k requires 0 <= k < 2 * |colors| =>
      if k % 2 == 0 then Hi(colors[k / 2]) else Lo(colors[k / 2]))
  }

  lemma PackAppend(a: seq<u16>, b: seq<u16>)
    ensures Pack(a + b) == Pack(a) + Pack(b)
  {
    var l, r := Pack(a + b), Pack(a) + Pack(b);
    forall k | 0 <= k < |l| ensures l[k] == r[k] {
      if k >= 2 * |a| {
        assert (k - 2 * |a|) / 2 == k / 2 - |a|;
        assert (k - 2 * |a|) % 2 == k % 2;
      }
    }
  }

  lemma PackCons(c: u16, rest: seq<u16>)
    ensures Pack([c] + rest) == [Hi(c), Lo(c)] + Pack(rest)
  {
    PackAppend([c], rest);
    assert Pack([c]) == [Hi(c), Lo(c)];
  }

  /** The panel's reading of a data stream: each byte pair, high byte first, is one pixel. */
  function Unpack(bytes: seq<u8>): seq<u16>
    requires |bytes| % 2 == 0
  {
    if bytes == [] then [] else [Word(bytes[0], bytes[1])] + Unpack(bytes[2..])
  }

  lemma {:induction false} UnpackPack(colors: seq<u16>)
    ensures Unpack(Pack(colors)) == colors
  {
    if colors != [] {
      var c, rest := colors[0], colors[1..];
      PackCons(c, rest);
      assert [c] + rest == colors;
      var p := Pack(colors);
      assert p[0] == Hi(c) && p[1] == Lo(c) && p[2..] == Pack(rest);
      UnpackPack(rest);
      WordOfHiLo(c);
    }
  }

  /** One write_data_8 per byte, in order. */
  function DataEvents(bytes: seq<u8>): seq<Event>
  {
    if bytes == [] then [] else [Data(bytes[0])] + DataEvents(bytes[1..])
  }

  lemma {:induction false} DataEventsSnoc(bytes: seq<u8>, b: u8)
    ensures DataEvents(bytes + [b]) == DataEvents(bytes) + [Data(b)]
  {
    if bytes == [] {
      assert bytes + [b] == [b];
      assert DataEvents([b]) == [Data(b)] + DataEvents([]);
    } else {
      assert (bytes + [b])[0] == bytes[0] && (bytes + [b])[1..] == bytes[1..] + [b];
      DataEventsSnoc(bytes[1..], b);
      AppendAssoc([Data(bytes[0])], DataEvents(bytes[1..]), [Data(b)]);
    }
  }

  /** Bytes sent one write_data_8 at a time reach the wire exactly as one DMA
      block holding them does. */
  lemma {:induction false} DataEventsIsBlock(bytes: seq<u8>)
    ensures Flatten(DataEvents(bytes)) == Flatten([Block(bytes, 1)])
  {
    assert Repeat(bytes, 1) == bytes;
    FlattenCons(Block(bytes, 1), []);
    assert [Block(bytes, 1)] + [] == [Block(bytes, 1)];
    if bytes != [] {
      DataEventsIsBlock(bytes[1..]);
      assert Repeat(bytes[1..], 1) == bytes[1..];
      FlattenCons(Block(bytes[1..], 1), []);
      assert [Block(bytes[1..], 1)] + [] == [Block(bytes[1..], 1)];
      FlattenCons(Data(bytes[0]), DataEvents(bytes[1..]));
      assert [bytes[0]] + bytes[1..] == bytes;
      DataBytesAppend([bytes[0]], bytes[1..]);
    }
  }

  /** One write_data_16 per colour, in order. */
  function Data16Stream(colors: seq<u16>): seq<Event>
  {
    seq(|colors|, i requires 0 <= i < |colors| => Data16(colors[i]))
  }

  lemma Data16StreamSnoc(colors: seq<u16>, c: u16)
    ensures Data16Stream(colors + [c]) == Data16Stream(colors) + [Data16(c)]
  {
  }

  /** The first write_data_16 of a stream and the rest of it. */
  lemma Data16StreamCons(colors: seq<u16>)
    requires colors != []
    ensures Data16Stream(colors) == [Data16(colors[0])] + Data16Stream(colors[1..])
  {
  }

  /** Sending colours one write_data_16 at a time puts their packed bytes on
      the wire, in order. */
  lemma {:induction false} Data16StreamWire(colors: seq<u16>)
    ensures Flatten(Data16Stream(colors)) == DataBytes(Pack(colors))
  {
    if colors != [] {
      var c, rest := colors[0], colors[1..];
      Data16StreamCons(colors);
      FlattenCons(Data16(c), Data16Stream(rest));
      Data16StreamWire(rest);
      assert [c] + rest == colors;
      PackCons(c, rest);
      assert Wire(Data16(c)) == DataBytes([Hi(c), Lo(c)]);
      DataBytesAppend([Hi(c), Lo(c)], Pack(rest));
    }
  }

  /** Sending colours one write_data_16 at a time puts on the wire exactly the bytes
      of one DMA block holding the packed colours. */
  lemma Data16StreamIsBlock(colors: seq<u16>)
    ensures Flatten(Data16Stream(colors)) == Flatten([Block(Pack(colors), 1)])
  {
    Data16StreamWire(colors);
    FlattenBlock(Pack(colors), 1);
    assert Repeat(Pack(colors), 1) == Pack(colors);
  }

  /** `n` pixels of one colour. */
  function Solid(color: u16, n: nat): seq<u16>
  {
    seq(n, _ => color)
  }

  /** A one-row block of `w` pixels replayed `h` times carries exactly `w * h`
      pixels of that colour. */
  lemma {:induction false} RepeatSolid(color: u16, w: nat, h: nat)
    ensures Repeat(Pack(Solid(color, w)), h) == Pack(Solid(color, w * h))
  {
    if h > 0 {
      RepeatSolid(color, w, h - 1);
      assert w * h == w + w * (h - 1);
      assert Solid(color, w) + Solid(color, w * (h - 1)) == Solid(color, w * h);
      PackAppend(Solid(color, w), Solid(color, w * (h - 1)));
    }
  }

  // ------------------------------------------------------------ staging

  /** The number of iterations of `for (j = 0; j < n; j++)` with a signed bound. */
  function Count(n: int): nat
  {
    if n > 0 then n else 0
  }

  /** The row buffer after `bytes` were staged at its start. */
  function Staged(buffer: seq<u8>, bytes: seq<u8>): (r: seq<u8>)
    requires |bytes| <= |buffer|
    ensures |r| == |buffer|
  {
    bytes + buffer[|bytes|..]
  }

  /** Staging twice with the same length leaves only the second content. */
  lemma StagedTwice(buffer: seq<u8>, first: seq<u8>, second: seq<u8>)
    requires |first| == |second| <= |buffer|
    ensures Staged(Staged(buffer, first), second) == Staged(buffer, second)
  {
  }

  /** `width * height << 1` passed as the `uint16_t` size of a bitmap's DMA transfer. */
  function BitmapBytes(w: u16, h: u16): u16
  {
    U16(w * h * 2)
  }
}
