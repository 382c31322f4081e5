/**
 * What a WS2812 pixel makes of the bits it receives: 24 bits, green byte
 * first, then red, then blue, each byte most significant bit first. Joined
 * to the serializer, which sends bits 31 down to 8 of each FIFO word, this
 * shows what colour the strip displays for a word written by the firmware.
 */
module PixelWire {
  import opened Bits
  import opened Color

  const BitsPerPixel: nat := 24

  /** The 24 bits a pixel must receive to show colour c. */
  function PixelBits(c: Rgb): (bits: seq<bool>)
    ensures |bits| == BitsPerPixel
  {
    ByteBits(c.g) + ByteBits(c.r) + ByteBits(c.b)
  }

  /** The colour a pixel latches from 24 received bits. */
  function Received(bits: seq<bool>): Rgb
    requires |bits| == BitsPerPixel
  {
    Rgb(FromBits(bits[8..16]), FromBits(bits[..8]), FromBits(bits[16..]))
  }

  lemma Thirds(a: seq<bool>, b: seq<bool>, c: seq<bool>)
    requires |a| == 8 && |b| == 8 && |c| == 8
    ensures var w := a + b + c;
            w[..8] == a && w[8..16] == b && w[16..] == c
  {
  }

  /** A pixel receiving the bits of c shows c. */
  lemma ReceivedPixelBits(c: Rgb)
    ensures Received(PixelBits(c)) == c
  {
    Thirds(ByteBits(c.g), ByteBits(c.r), ByteBits(c.b));
    FromByteBits(c.g);
    FromByteBits(c.r);
    FromByteBits(c.b);
  }

  /** The bits the serializer sends for one FIFO word: bits 31 down to 8. */
  function SentBits(w: bv32): (bits: seq<bool>)
    ensures |bits| == BitsPerPixel
  {
    WordBits(w)[..BitsPerPixel]
  }

  /** The bits sent for a word are those of its top three bytes, top first. */
  lemma SentBytes(w: bv32)
    ensures SentBits(w) == ByteBits(WordByte(w, 3)) + ByteBits(WordByte(w, 2)) + ByteBits(WordByte(w, 1))
  {
    var q3, q2, q1, q0 := ByteBits(WordByte(w, 3)), ByteBits(WordByte(w, 2)), ByteBits(WordByte(w, 1)), ByteBits(WordByte(w, 0));
    assert (q3 + q2 + q1 + q0)[..BitsPerPixel] == q3 + q2 + q1;
  }

  /**
   * The word as the firmware writes it, `to_grb24` unshifted: its top byte
   * is clear, so the serializer sends 0x00, then green, then red, and blue
   * is never sent. The pixel shows green in its red channel, red in its
   * blue channel and no green.
   */
  lemma AsWrittenPixel(c: Rgb)
    ensures SentBits(ToGrb24(c)) == ByteBits(0) + ByteBits(c.g) + ByteBits(c.r)
    ensures Received(SentBits(ToGrb24(c))) == Rgb(c.g, 0, c.r)
  {
    GrbBytes(c);
    SentBytes(ToGrb24(c));
    Thirds(ByteBits(0), ByteBits(c.g), ByteBits(c.r));
    FromByteBits(0);
    FromByteBits(c.g);
    FromByteBits(c.r);
  }

  /** The firmware's test colour, red, reaches the strip as blue. */
  lemma RedArrivesAsBlue()
    ensures Received(SentBits(ToGrb24(Red))) == Blue
  {
    AsWrittenPixel(Red);
  }

  /**
   * The packed colour moved into the top 24 bits, where a left-shifting OSR
   * sends from: bytes 3, 2 and 1 are green, red and blue, and byte 0 is clear.
   */
  function AlignedWord(c: Rgb): (w: bv32)
    ensures WordByte(w, 3) == c.g && WordByte(w, 2) == c.r && WordByte(w, 1) == c.b && WordByte(w, 0) == 0
  {
    ToGrb24(c) << 8
  }

  /** With the aligned word the serializer sends exactly c's pixel bits, and the pixel shows c. */
  lemma AlignedPixel(c: Rgb)
    ensures SentBits(AlignedWord(c)) == PixelBits(c)
    ensures Received(SentBits(AlignedWord(c))) == c
  {
    SentBytes(AlignedWord(c));
    ReceivedPixelBits(c);
  }

  /** The bits sent for a run of FIFO words, one pixel's worth per word, in order. */
  function SentStream(words: seq<bv32>): (bits: seq<bool>)
    ensures |bits| == BitsPerPixel * |words|
  {
    if words == [] then [] else SentBits(words[0]) + SentStream(words[1..])
  }

  /**
   * A chain of pixels fed a bit stream: the first pixel latches the first
   * 24 bits and passes the rest on to the next one; fewer than 24 bits
   * left over light nothing.
   */
  function Shown(bits: seq<bool>): seq<Rgb>
    decreases |bits|
  {
    if |bits| < BitsPerPixel then [] else [Received(bits[..BitsPerPixel])] + Shown(bits[BitsPerPixel..])
  }

  /** Pixel i of the chain shows what word i encodes. */
  lemma {:induction false} ShownStream(words: seq<bv32>)
    ensures |Shown(SentStream(words))| == |words|
    ensures forall i :: 0 <= i < |words| ==> Shown(SentStream(words))[i] == Received(SentBits(words[i]))
  {
    if words != [] {
      var bits := SentStream(words);
      assert bits[..BitsPerPixel] == SentBits(words[0]);
      assert bits[BitsPerPixel..] == SentStream(words[1..]);
      ShownStream(words[1..]);
    }
  }
}
