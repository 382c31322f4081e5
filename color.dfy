/**
 * The pixel colour of the firmware (`Rgb` in src/pio_programs.rs) and its
 * packing into the 32-bit word handed to the WS2812 state machine.
 * Channels are `u8` in the firmware and `bv8` here; the packed word is a
 * `u32` there and a `bv32` here, so every operation is bit-exact.
 */
module Color {
  import opened Bits

  /** One pixel: three independent 8-bit intensities. */
  datatype Rgb = Rgb(r: bv8, g: bv8, b: bv8)

  /** `Rgb::new`: the channels are stored exactly as given. */
  function New(r: bv8, g: bv8, b: bv8): (c: Rgb)
    ensures c.r == r && c.g == g && c.b == b
  {
    Rgb(r, g, b)
  }

  /** Shifting three bytes into disjoint bit ranges and or-ing them is their weighted sum. */
  lemma DisjointFields(g: bv32, r: bv32, b: bv32)
    requires g < 0x100 && r < 0x100 && b < 0x100
    ensures (g << 16) | (r << 8) | b == g * 0x1_0000 + r * 0x100 + b
    ensures (g << 16) | (r << 8) | b < 0x100_0000
  {
  }

  /**
   * `Rgb::to_grb24`: green in bits 23..16, red in bits 15..8, blue in bits 7..0,
   * written with the firmware's shifts and or; the top byte stays clear.
   */
  function ToGrb24(c: Rgb): (w: bv32)
    ensures w == (c.g as bv32) * 0x1_0000 + (c.r as bv32) * 0x100 + c.b as bv32
    ensures w < 0x100_0000
  {
    DisjointFields(c.g as bv32, c.r as bv32, c.b as bv32);
    ((c.g as bv32) << 16) | ((c.r as bv32) << 8) | (c.b as bv32)
  }

  /** Unpacking a packed word gives the channels back: byte 2 is green, 1 red, 0 blue. */
  lemma GrbBytes(c: Rgb)
    ensures WordByte(ToGrb24(c), 3) == 0
    ensures WordByte(ToGrb24(c), 2) == c.g
    ensures WordByte(ToGrb24(c), 1) == c.r
    ensures WordByte(ToGrb24(c), 0) == c.b
  {
  }

  /** Distinct colours pack to distinct words. */
  lemma ToGrb24Injective(c: Rgb, d: Rgb)
    requires ToGrb24(c) == ToGrb24(d)
    ensures c == d
  {
    GrbBytes(c);
    GrbBytes(d);
  }

  const Black: Rgb := Rgb(0, 0, 0)
  const Red: Rgb := Rgb(255, 0, 0)
  const Green: Rgb := Rgb(0, 255, 0)
  const Blue: Rgb := Rgb(0, 0, 255)
  const White: Rgb := Rgb(255, 255, 255)
  const Yellow: Rgb := Rgb(255, 255, 0)
  const Cyan: Rgb := Rgb(0, 255, 255)
  const Magenta: Rgb := Rgb(255, 0, 255)

  /** The packed words of the eight named colours. */
  lemma NamedColorWords()
    ensures ToGrb24(Black) == 0x00_0000
    ensures ToGrb24(Red) == 0x00_FF00
    ensures ToGrb24(Green) == 0xFF_0000
    ensures ToGrb24(Blue) == 0x00_00FF
    ensures ToGrb24(White) == 0xFF_FFFF
    ensures ToGrb24(Yellow) == 0xFF_FF00
    ensures ToGrb24(Cyan) == 0xFF_00FF
    ensures ToGrb24(Magenta) == 0x00_FFFF
  {
  }
}
