/** The static `char str[12]` of tft_print_number, common to both drivers:
    the decimal text of a number is written into it backwards, from the NUL
    at index 11 towards index 0. */
module NumberBuffer {
  import opened Bits
  import opened Transport
  import opened Raster

  /** One turn of the digit loop moves the last digit of `n` in front of those written. */
  lemma DigitStep(num: nat, n: nat, written: seq<u8>)
    requires n != 0 && LoopDigits(num) == LoopDigits(n) + written && |LoopDigits(num)| <= 10
    ensures LoopDigits(num) == LoopDigits(n / 10) + ([Zero + n % 10] + written)
    ensures |written| < 10
  {
    var last := [Zero + n % 10];
    assert LoopDigits(n) == LoopDigits(n / 10) + last;
    AppendAssoc(LoopDigits(n / 10), last, written);
  }

  /** One more space in front of k spaces. */
  lemma SpacesCons(k: nat, text: seq<u8>)
    ensures [Space] + (Spaces(k) + text) == Spaces(k + 1) + text
  {
    assert [Space] + Spaces(k) == Spaces(k + 1);
    AppendAssoc([Space], Spaces(k), text);
  }

  class DigitBuffer {
    const cells: array<u8>

    ghost predicate Valid()
    {
      cells.Length == 12
    }

    /** `static char str[12]`, zero-initialised. */
    constructor ()
      ensures Valid() && fresh(cells) && cells[..] == seq(12, _ => 0)
    {
      cells := new u8[12](_ => 0);
    }

    /** Cells `p..10` hold `text`, and cell 11 the NUL. */
    ghost predicate Holds(p: nat, text: seq<u8>)
      reads this, cells
    {
      Valid() && p + |text| == 11 && cells[11] == 0
      && forall k :: p <= k < 11 ==> cells[k] == text[k - p]
    }

    /** The buffer then ends with `text` and its NUL. */
    lemma Suffix(p: nat, text: seq<u8>)
      requires Holds(p, text)
      ensures cells[p..] == text + [0]
    {
    }

    /** `str[--digits] = ch`. */
    method Push(position: nat, ch: u8, ghost text: seq<u8>) returns (p: nat)
      requires Holds(position, text) && 0 < position
      modifies cells
      ensures p == position - 1 && Holds(p, [ch] + text)
      ensures forall k :: 0 <= k < p ==> cells[k] == old(cells[k])
    {
      p := position - 1;
      cells[p] := ch;
    }

    /** The digit loop of tft_print_number: the NUL at index 11, the digits of
        |num| from the right, a '0' when the loop wrote none, then the sign.
        Returns the index of the first character. */
    method Format(num: int) returns (position: nat)
      requires Valid() && Int32Min < num <= Int32Max
      modifies cells
      ensures position == 11 - |NumberText(num)|
      ensures Holds(position, NumberText(num))
      ensures cells[position..] == NumberText(num) + [0]
      ensures forall k :: 0 <= k < position ==> cells[k] == old(cells[k])
    {
      position := 11;
      var negative := false;
      var n := num;
      if n < 0 {
        negative := true;
        n := -n;
      }
      cells[position] := 0;
      ghost var written: seq<u8> := [];
      Int32Digits(num);
      assert LoopDigits(n) + written == LoopDigits(n);
      while n != 0
        invariant 0 <= n && Holds(position, written)
        invariant LoopDigits(Abs(num)) == LoopDigits(n) + written
        invariant forall k :: 0 <= k < position ==> cells[k] == old(cells[k])
        decreases n
      {
        DigitStep(Abs(num), n, written);
        var d: u8 := Zero + n % 10;
        position := Push(position, d, written);
        written := [d] + written;
        n := n / 10;
      }
      NumberTextOfLoop(num, written);
      if position == 11 {
        position := Push(position, Zero, written);
        written := [Zero];
      }
      if negative {
        position := Push(position, Minus, written);
        written := [Minus] + written;
      }
      assert written == NumberText(num);
      Suffix(position, written);
    }

    /** The padding loop of the 8-bit driver: `while (digits) str[--digits] = ' ';`
        puts a space in every cell in front of the text. */
    method Pad(position: nat, ghost text: seq<u8>)
      requires Holds(position, text)
      modifies cells
      ensures Holds(0, Spaces(position) + text)
      ensures cells[..] == Spaces(position) + text + [0]
    {
      var p: nat := position;
      assert Spaces(0) + text == text;
      while p != 0
        invariant p <= position && Holds(p, Spaces(position - p) + text)
      {
        SpacesCons(position - p, text);
        p := Push(p, Space, Spaces(position - p) + text);
      }
      Suffix(0, Spaces(position) + text);
      assert cells[..] == cells[0..];
    }
  }
}
