/** The white-noise generator of the demos, `rand8`: a 32-bit linear feedback
    shift register with taps at bits 31, 21, 1 and 0, shifted eight times per
    call, whose low byte is the random value. */
module Noise {
  import opened Bits

  /** NOISE_BITS: shifts per call. */
  const NoiseBits: nat := 8

  /** The new bit of one shift: bit 31 ^ bit 21 ^ bit 1 ^ bit 0 of the register. */
  function Feedback(lfsr: bv32): bv32
  {
    ((lfsr >> 31) ^ (lfsr >> 21) ^ (lfsr >> 1) ^ lfsr) & 1
  }

  /** One shift, as the loop body computes it with `new_data`. */
  function Step(lfsr: bv32): bv32
  {
    var newData := (lfsr >> 31) ^ (lfsr >> 21) ^ (lfsr >> 1) ^ lfsr;
    (lfsr << 1) | (newData & 1)
  }

  /** `n` shifts. */
  function Steps(lfsr: bv32, n: nat): bv32
  {
    if n == 0 then lfsr else Step(Steps(lfsr, n - 1))
  }

  /** A shift puts the feedback bit into bit 0 and moves bits 0..30 one place up. */
  lemma StepBits(lfsr: bv32)
    ensures Step(lfsr) & 1 == Feedback(lfsr)
    ensures Step(lfsr) >> 1 == lfsr & 0x7FFF_FFFF
  {
  }

  /** The state never falls into the all-zero register, from which the
      generator could not get out: bit 31 alone shifts out but feeds back a 1. */
  lemma StepNonZero(lfsr: bv32)
    requires lfsr != 0
    ensures Step(lfsr) != 0
  {
  }

  lemma {:induction false} StepsNonZero(lfsr: bv32, n: nat)
    requires lfsr != 0
    ensures Steps(lfsr, n) != 0
  {
    if n > 0 {
      StepsNonZero(lfsr, n - 1);
      StepNonZero(Steps(lfsr, n - 1));
    }
  }

  /** The eight feedback bits one call produces from `lfsr`, the first in bit 7. */
  function FeedbackByte(lfsr: bv32): bv32
  {
    (Feedback(lfsr) << 7) | (Feedback(Steps(lfsr, 1)) << 6) | (Feedback(Steps(lfsr, 2)) << 5)
    | (Feedback(Steps(lfsr, 3)) << 4) | (Feedback(Steps(lfsr, 4)) << 3)
    | (Feedback(Steps(lfsr, 5)) << 2) | (Feedback(Steps(lfsr, 6)) << 1) | Feedback(Steps(lfsr, 7))
  }

  /** The low byte moved up by one place with a new bit below it. */
  function ShiftIn(low: bv32, bit: bv32): bv32
  {
    ((low << 1) | bit) & 0xFF
  }

  /** A shift's low byte depends only on the old low byte and the feedback bit. */
  lemma StepLow(s: bv32, t: bv32)
    requires t == Step(s)
    ensures t & 0xFF == ShiftIn(s & 0xFF, Feedback(s))
  {
  }

  lemma FeedbackBit(s: bv32)
    ensures Feedback(s) <= 1
  {
  }

  /** Eight bits shifted in push every old bit out of the byte. */
  lemma ShiftInEight(low: bv32, f0: bv32, f1: bv32, f2: bv32, f3: bv32, f4: bv32, f5: bv32, f6: bv32, f7: bv32)
    requires f0 <= 1 && f1 <= 1 && f2 <= 1 && f3 <= 1 && f4 <= 1 && f5 <= 1 && f6 <= 1 && f7 <= 1
    ensures ShiftIn(ShiftIn(ShiftIn(ShiftIn(ShiftIn(ShiftIn(ShiftIn(ShiftIn(low, f0), f1), f2), f3), f4), f5), f6), f7)
            == (f0 << 7) | (f1 << 6) | (f2 << 5) | (f3 << 4) | (f4 << 3) | (f5 << 2) | (f6 << 1) | f7
  {
  }

  /** Eight consecutive states: the low byte of the last is made of the
      feedback bits of the first eight. */
  lemma LowByteOfEight(s0: bv32, s1: bv32, s2: bv32, s3: bv32, s4: bv32, s5: bv32, s6: bv32, s7: bv32, s8: bv32)
    requires s1 == Step(s0) && s2 == Step(s1) && s3 == Step(s2) && s4 == Step(s3)
    requires s5 == Step(s4) && s6 == Step(s5) && s7 == Step(s6) && s8 == Step(s7)
    ensures s8 & 0xFF == (Feedback(s0) << 7) | (Feedback(s1) << 6) | (Feedback(s2) << 5) | (Feedback(s3) << 4)
                         | (Feedback(s4) << 3) | (Feedback(s5) << 2) | (Feedback(s6) << 1) | Feedback(s7)
  {
    StepLow(s0, s1); StepLow(s1, s2); StepLow(s2, s3); StepLow(s3, s4);
    StepLow(s4, s5); StepLow(s5, s6); StepLow(s6, s7); StepLow(s7, s8);
    ByteChain(s0, s1, s2, s3, s4, s5, s6, s7, s8);
  }

  /** Eight consecutive low bytes, each the previous one shifted with a
      feedback bit: the last is made of the eight feedback bits alone. */
  lemma ByteChain(s0: bv32, s1: bv32, s2: bv32, s3: bv32, s4: bv32, s5: bv32, s6: bv32, s7: bv32, s8: bv32)
    requires s1 & 0xFF == ShiftIn(s0 & 0xFF, Feedback(s0)) && s2 & 0xFF == ShiftIn(s1 & 0xFF, Feedback(s1))
    requires s3 & 0xFF == ShiftIn(s2 & 0xFF, Feedback(s2)) && s4 & 0xFF == ShiftIn(s3 & 0xFF, Feedback(s3))
    requires s5 & 0xFF == ShiftIn(s4 & 0xFF, Feedback(s4)) && s6 & 0xFF == ShiftIn(s5 & 0xFF, Feedback(s5))
    requires s7 & 0xFF == ShiftIn(s6 & 0xFF, Feedback(s6)) && s8 & 0xFF == ShiftIn(s7 & 0xFF, Feedback(s7))
    ensures s8 & 0xFF == (Feedback(s0) << 7) | (Feedback(s1) << 6) | (Feedback(s2) << 5) | (Feedback(s3) << 4)
                         | (Feedback(s4) << 3) | (Feedback(s5) << 2) | (Feedback(s6) << 1) | Feedback(s7)
  {
    FeedbackBit(s0); FeedbackBit(s1); FeedbackBit(s2); FeedbackBit(s3);
    FeedbackBit(s4); FeedbackBit(s5); FeedbackBit(s6); FeedbackBit(s7);
    ShiftInEight(s0 & 0xFF, Feedback(s0), Feedback(s1), Feedback(s2), Feedback(s3),
                 Feedback(s4), Feedback(s5), Feedback(s6), Feedback(s7));
  }

  /** The value a call returns is exactly the eight feedback bits the call
      produced: none of the previous low byte survives. */
  lemma OutputIsFeedback(lfsr: bv32)
    ensures Output(lfsr) == FeedbackByte(lfsr) as int
  {
    var s0 := lfsr;
    assert Steps(lfsr, 0) == s0;
    var s1 := Step(s0);
    assert Steps(lfsr, 1) == s1;
    var s2 := Step(s1);
    assert Steps(lfsr, 2) == s2;
    var s3 := Step(s2);
    assert Steps(lfsr, 3) == s3;
    var s4 := Step(s3);
    assert Steps(lfsr, 4) == s4;
    var s5 := Step(s4);
    assert Steps(lfsr, 5) == s5;
    var s6 := Step(s5);
    assert Steps(lfsr, 6) == s6;
    var s7 := Step(s6);
    assert Steps(lfsr, 7) == s7;
    var s8 := Step(s7);
    assert Steps(lfsr, 8) == s8;
    LowByteOfEight(s0, s1, s2, s3, s4, s5, s6, s7, s8);
  }

  /** The generator's only state: `uint32_t lfsr`. */
  class Generator {
    var lfsr: bv32

    /** The register is never all zeros. */
    predicate Valid()
      reads this
    {
      lfsr != 0
    }

    /** `uint32_t lfsr = 1;` */
    constructor ()
      ensures Valid() && lfsr == 1
    {
      lfsr := 1;
    }

    /** rand8: eight shifts of the register, then its low byte. */
    method Rand8() returns (r: u8)
      requires Valid()
      modifies this
      ensures Valid() && lfsr == Steps(old(lfsr), NoiseBits)
      ensures r == Output(old(lfsr))
    {
      var bit := 0;
      while bit < NoiseBits
        invariant 0 <= bit <= NoiseBits && lfsr == Steps(old(lfsr), bit)
      {
        var newData := (lfsr >> 31) ^ (lfsr >> 21) ^ (lfsr >> 1) ^ lfsr;
        var shifted := (lfsr << 1) | (newData & 1);
        assert shifted == Step(lfsr);
        lfsr := shifted;
        bit := bit + 1;
      }
      r := (lfsr & 0xFF) as int;
      StepsNonZero(old(lfsr), NoiseBits);
    }
  }

  /** The value a call returns is the low byte of the new state. */
  function Output(lfsr: bv32): u8
  {
    (Steps(lfsr, NoiseBits) & 0xFF) as int
  }

  /** From the initial state 1 the first two calls return 0xB6 and 0xDB. */
  lemma FirstOutputs()
    ensures Steps(1, NoiseBits) == 0x1B6 && Output(1) == 0xB6
    ensures Steps(0x1B6, NoiseBits) == 0x1_B6DB && Output(0x1B6) == 0xDB
  {
    assert Steps(1, 1) == 0x3;
    assert Steps(1, 2) == 0x6;
    assert Steps(1, 3) == 0xD;
    assert Steps(1, 4) == 0x1B;
    assert Steps(1, 5) == 0x36;
    assert Steps(1, 6) == 0x6D;
    assert Steps(1, 7) == 0xDB;
    assert Steps(1, 8) == 0x1B6;
    assert Steps(0x1B6, 1) == 0x36D;
    assert Steps(0x1B6, 2) == 0x6DB;
    assert Steps(0x1B6, 3) == 0xDB6;
    assert Steps(0x1B6, 4) == 0x1B6D;
    assert Steps(0x1B6, 5) == 0x36DB;
    assert Steps(0x1B6, 6) == 0x6DB6;
    assert Steps(0x1B6, 7) == 0xDB6D;
    assert Steps(0x1B6, 8) == 0x1B6DB;
  }
}
