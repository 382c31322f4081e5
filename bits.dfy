/**
 * Bits of bytes and 32-bit words as sequences, most significant bit first:
 * the order in which a left-shifting output shift register hands them out,
 * and the order in which a WS2812 pixel expects each of its bytes.
 */
module Bits {

  /** A 32-bit register or FIFO entry, as its bits, bit 31 first. */
  type Word = bits: seq<bool> | |bits| == 32 witness seq(32, k => false)

  /** The eight bits of a byte, bit 7 first. */
  function ByteBits(v: bv8): (bits: seq<bool>)
    ensures |bits| == 8
    ensures bits[0] == (v >= 0x80)
  {
    [v & 0x80 != 0, v & 0x40 != 0, v & 0x20 != 0, v & 0x10 != 0,
     v & 0x08 != 0, v & 0x04 != 0, v & 0x02 != 0, v & 0x01 != 0]
  }

  /** A bit's contribution to an accumulated byte. */
  function Weight(bit: bool, v: bv8): bv8 {
    if bit then v else 0
  }

  /** The byte eight bits spell, the first bit being bit 7. */
  function FromBits(bits: seq<bool>): bv8
    requires |bits| == 8
  {
    Weight(bits[0], 0x80) | Weight(bits[1], 0x40) | Weight(bits[2], 0x20) | Weight(bits[3], 0x10) |
    Weight(bits[4], 0x08) | Weight(bits[5], 0x04) | Weight(bits[6], 0x02) | Weight(bits[7], 0x01)
  }

  /** Reading back the bits of a byte gives the byte. */
  lemma FromByteBits(v: bv8)
    ensures FromBits(ByteBits(v)) == v
  {
  }

  /** Byte k of a word as the low byte of a shift: k = 3 is the top byte. */
  function WordByte(w: bv32, k: nat): bv8
    requires k < 4
  {
    if k == 3 then (w >> 24) as bv8
    else if k == 2 then ((w >> 16) & 0xFF) as bv8
    else if k == 1 then ((w >> 8) & 0xFF) as bv8
    else (w & 0xFF) as bv8
  }

  /** The 32 bits of a word, bit 31 first. */
  function WordBits(w: bv32): Word
  {
    ByteBits(WordByte(w, 3)) + ByteBits(WordByte(w, 2)) + ByteBits(WordByte(w, 1)) + ByteBits(WordByte(w, 0))
  }

  /** The word whose bits, bit 31 first, are the given 32 bits. */
  function FromWordBits(bits: Word): bv32
  {
    ((FromBits(bits[..8]) as bv32) << 24) | ((FromBits(bits[8..16]) as bv32) << 16) |
    ((FromBits(bits[16..24]) as bv32) << 8) | (FromBits(bits[24..]) as bv32)
  }

  /** WordBits loses nothing: the word can be read back from its bits. */
  lemma WordBitsRoundTrip(w: bv32)
    ensures FromWordBits(WordBits(w)) == w
  {
    FromFourBytes(WordByte(w, 3), WordByte(w, 2), WordByte(w, 1), WordByte(w, 0));
    ByteAssembly(w);
  }

  /** Reading a word back from the bits of four bytes places each byte. */
  lemma FromFourBytes(b3: bv8, b2: bv8, b1: bv8, b0: bv8)
    ensures FromWordBits(ByteBits(b3) + ByteBits(b2) + ByteBits(b1) + ByteBits(b0)) ==
            ((b3 as bv32) << 24) | ((b2 as bv32) << 16) | ((b1 as bv32) << 8) | (b0 as bv32)
  {
    Quarters(ByteBits(b3), ByteBits(b2), ByteBits(b1), ByteBits(b0));
    FromByteBits(b3);
    FromByteBits(b2);
    FromByteBits(b1);
    FromByteBits(b0);
  }

  /** The four bytes of a word's bits can be sliced back out. */
  lemma Quarters(a: seq<bool>, b: seq<bool>, c: seq<bool>, d: seq<bool>)
    requires |a| == 8 && |b| == 8 && |c| == 8 && |d| == 8
    ensures var w := a + b + c + d;
            w[..8] == a && w[8..16] == b && w[16..24] == c && w[24..] == d
  {
  }

  /** A word is its four bytes shifted back into place. */
  lemma ByteAssembly(w: bv32)
    ensures ((WordByte(w, 3) as bv32) << 24) | ((WordByte(w, 2) as bv32) << 16) |
            ((WordByte(w, 1) as bv32) << 8) | (WordByte(w, 0) as bv32) == w
  {
  }
}
