/**
 * The hue wheel `rainbow` of src/pio_programs.rs: a position 0..255 is mapped
 * onto red -> green -> blue -> red in three segments of 85 positions. The
 * firmware computes on `u8`; here the same expressions are evaluated on `bv8`,
 * whose arithmetic wraps, and the lemmas show that no wrap ever happens.
 */
module HueWheel {
  import opened Color

  /** Sum of the three channels as an unbounded integer. */
  function Brightness(c: Rgb): int {
    c.r as int + c.g as int + c.b as int
  }

  /**
   * `rainbow(pos)`. Every colour on the wheel has total intensity 255 and
   * keeps one channel off.
   */
  function Rainbow(pos: bv8): (c: Rgb)
    ensures Brightness(c) == 255
    ensures c.r == 0 || c.g == 0 || c.b == 0
  {
    if pos <= 84 then
      New(255 - pos * 3, pos * 3, 0)
    else if pos <= 169 then
      var p := pos - 85;
      New(0, 255 - p * 3, p * 3)
    else
      var p := pos - 170;
      New(p * 3, 0, 255 - p * 3)
  }

  /**
   * The wheel on unbounded integers: the ramp of each segment with no
   * 8-bit truncation. Channels are listed as (red, green, blue).
   */
  function ExactWheel(pos: int): (int, int, int)
    requires 0 <= pos < 256
  {
    if pos <= 84 then (255 - 3 * pos, 3 * pos, 0)
    else if pos <= 169 then (0, 255 - 3 * (pos - 85), 3 * (pos - 85))
    else (3 * (pos - 170), 0, 255 - 3 * (pos - 170))
  }

  /**
   * For every position the 8-bit computation agrees with the exact one: no
   * subtraction underflows and no multiplication by 3 passes 255, and the
   * segment's third channel is the one held at zero.
   */
  lemma RainbowIsExact(pos: bv8)
    ensures var c := Rainbow(pos);
            (c.r as int, c.g as int, c.b as int) == ExactWheel(pos as int)
    ensures pos <= 84 ==> Rainbow(pos).b == 0
    ensures 85 <= pos <= 169 ==> Rainbow(pos).r == 0
    ensures 170 <= pos ==> Rainbow(pos).g == 0
  {
  }

  /** The landmarks of the wheel, and its closing back to red at 255. */
  lemma RainbowLandmarks()
    ensures Rainbow(0) == Red
    ensures Rainbow(85) == Green
    ensures Rainbow(170) == Blue
    ensures Rainbow(255) == Rgb(255, 0, 0) == Red
  {
  }

  /** Two channel values at most 3 apart. */
  predicate Near(a: bv8, b: bv8) {
    if a <= b then b - a <= 3 else a - b <= 3
  }

  /**
   * The wheel is continuous: one step (with 255 stepping to 0) changes each
   * channel by at most 3, across the segment seams as well.
   */
  lemma RainbowContinuous(pos: bv8)
    ensures var c, d := Rainbow(pos), Rainbow(pos + 1);
            Near(c.r, d.r) && Near(c.g, d.g) && Near(c.b, d.b)
  {
  }
}
