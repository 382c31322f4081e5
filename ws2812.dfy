/**
 * The WS2812 serializer: the four-instruction program `ws2812()` of
 * src/pio_programs.rs, run with the configuration of src/main.rs (shift left,
 * autopull, threshold 24), and what it puts on the data line.
 */
module Ws2812 {
  import opened Wrappers
  import opened Pio
  import opened Bits
  import opened PixelWire

  const Bitloop: nat := 0
  const DoOne: nat := 2
  const DoZero: nat := 3

  /**
   * The serializer program. bitloop shifts one bit into x with the line low
   * and two delay cycles; the branch drives the line high for two cycles and
   * goes to do_zero on a 0; do_one keeps the line high five more cycles and
   * jumps back; do_zero drives it low for five cycles and wraps to bitloop.
   */
  const BitProgram: Program := Program(
    [ Instr(OutX(1), Some(Low), 2),
      Instr(JmpNotX(DoZero), Some(High), 1),
      Instr(Jmp(Bitloop), Some(High), 4),
      Instr(Nop, Some(Low), 4) ],
    Bitloop, DoZero)

  /** `out_shift_direction(Left)`, `autopull(true)`, `pull_threshold(24)`. */
  const Serializer: Config := Config(ShiftLeft, true, 24)

  const CyclesPerBit: nat := 10
  /** Instructions executed per data bit: out, jmp !x, then jmp or nop. */
  const StepsPerBit: nat := 3

  /** The state after `sm.start()`: at bitloop, OSR empty, FIFO empty, line low. */
  const Start: State := State(Bitloop, Zeros(32), Zeros(32), 32, [], Low)

  /** The machine is at bitloop with its state in range. */
  predicate AtBitloop(s: State) {
    ValidProgram(BitProgram) && ValidConfig(Serializer) && ValidState(BitProgram, s) && s.pc == Bitloop
  }

  function Run(s: State, n: nat): Outcome
    requires ValidState(BitProgram, s)
  {
    Pio.Run(BitProgram, Serializer, s, n)
  }

  /** The WS2812 pulse for one bit, cycle by cycle. */
  function BitWave(bit: bool): seq<Level> {
    if bit then Repeat(Low, 3) + Repeat(High, 7)
    else Repeat(Low, 3) + Repeat(High, 2) + Repeat(Low, 5)
  }

  /** The number of cycles a waveform spends high. */
  function HighCycles(w: seq<Level>): nat {
    if w == [] then 0 else (if w[0] == High then 1 else 0) + HighCycles(w[1..])
  }

  lemma {:induction false} HighCyclesAppend(a: seq<Level>, b: seq<Level>)
    ensures HighCycles(a + b) == HighCycles(a) + HighCycles(b)
  {
    if a == [] {
      assert a + b == b;
    } else {
      assert (a + b)[1..] == a[1..] + b;
      HighCyclesAppend(a[1..], b);
    }
  }

  lemma {:induction false} HighCyclesRepeat(l: Level, n: nat)
    ensures HighCycles(Repeat(l, n)) == if l == High then n else 0
  {
    if n > 0 {
      assert Repeat(l, n)[1..] == Repeat(l, n - 1);
      HighCyclesRepeat(l, n - 1);
    }
  }

  /**
   * Both bit values take the same ten cycles and start with three low ones;
   * a 1 is then high for 7 cycles and a 0 for 2, so only the high/low split
   * depends on the bit.
   */
  lemma BitWaveShape(bit: bool)
    ensures |BitWave(bit)| == CyclesPerBit
    ensures HighCycles(BitWave(bit)) == if bit then 7 else 2
    ensures BitWave(bit)[..3] == Repeat(Low, 3)
  {
    HighCyclesRepeat(Low, 3);
    HighCyclesRepeat(High, 7);
    HighCyclesRepeat(High, 2);
    HighCyclesRepeat(Low, 5);
    if bit {
      HighCyclesAppend(Repeat(Low, 3), Repeat(High, 7));
    } else {
      HighCyclesAppend(Repeat(Low, 3), Repeat(High, 2));
      HighCyclesAppend(Repeat(Low, 3) + Repeat(High, 2), Repeat(Low, 5));
    }
  }

  /** The waveform of a bit sequence: the bit pulses back to back. */
  function Wave(bits: seq<bool>): (w: seq<Level>)
    ensures |w| == CyclesPerBit * |bits|
  {
    if bits == [] then [] else
      BitWaveShape(bits[0]);
      BitWave(bits[0]) + Wave(bits[1..])
  }

  lemma {:induction false} WaveAppend(a: seq<bool>, b: seq<bool>)
    ensures Wave(a + b) == Wave(a) + Wave(b)
  {
    if a == [] {
      assert a + b == b;
    } else {
      assert (a + b)[1..] == a[1..] + b;
      WaveAppend(a[1..], b);
    }
  }

  /** Autopull does not touch the pin. */
  lemma AutopullKeepsPin(s: State, l: Level)
    ensures Autopull(Serializer, s.(pin := l)) == Autopull(Serializer, s).(pin := l)
  {
  }

  /** `out x, 1` on a left-shifting OSR: x gets the top bit, the OSR moves up by one. */
  lemma ShiftOutOne(t: State)
    requires t.outCount < 32
    ensures ShiftOut(Serializer, t, 1) ==
              t.(x := Zeros(31) + [t.osr[0]], osr := t.osr[1..] + [false], outCount := t.outCount + 1)
  {
    assert Zeros(1) == [false];
    assert t.osr[..1] == [t.osr[0]];
  }

  /** The x written by `out x, 1` is zero exactly when the bit shifted out is 0. */
  lemma OneBitZero(bit: bool)
    ensures IsZero(Zeros(31) + [bit]) <==> !bit
  {
    var x := Zeros(31) + [bit];
    assert x[31] == bit;
  }

  /** `out x, 1 side 0 [2]` when a bit is available: autopull if due, then shift one bit into x. */
  lemma StepOut(s: State)
    requires AtBitloop(s) && !OutStalls(Serializer, s)
    ensures var t := Autopull(Serializer, s);
            t.outCount < BitsPerPixel &&
            Step(BitProgram, Serializer, s) ==
              Outcome(t.(x := Zeros(31) + [t.osr[0]], osr := t.osr[1..] + [false], outCount := t.outCount + 1,
                         pc := 1, pin := Low),
                      Repeat(Low, 3))
  {
    var t := Autopull(Serializer, s);
    AutopullKeepsPin(s, Low);
    ShiftOutOne(t.(pin := Low));
  }

  /** `out x, 1 side 0 [2]` with the OSR used up and the FIFO empty: one stalled cycle, line low. */
  lemma StepOutStalled(s: State)
    requires AtBitloop(s) && OutStalls(Serializer, s)
    ensures Step(BitProgram, Serializer, s) == Outcome(s.(pin := Low), [Low])
  {
  }

  /** `jmp !x do_zero side 1 [1]`. */
  lemma StepBranch(s: State)
    requires ValidState(BitProgram, s) && s.pc == 1
    ensures Step(BitProgram, Serializer, s) ==
              Outcome(s.(pc := if IsZero(s.x) then DoZero else DoOne, pin := High), Repeat(High, 2))
  {
  }

  /** `do_one: jmp bitloop side 1 [4]`. */
  lemma StepDoOne(s: State)
    requires ValidState(BitProgram, s) && s.pc == DoOne
    ensures Step(BitProgram, Serializer, s) == Outcome(s.(pc := Bitloop, pin := High), Repeat(High, 5))
  {
  }

  /** `do_zero: nop side 0 [4]`, then the wrap back to bitloop. */
  lemma StepDoZero(s: State)
    requires ValidState(BitProgram, s) && s.pc == DoZero
    ensures Step(BitProgram, Serializer, s) == Outcome(s.(pc := Bitloop, pin := Low), Repeat(Low, 5))
  {
  }

  /** Three steps in a row. */
  lemma ThreeSteps(s: State)
    requires ValidState(BitProgram, s)
    ensures var s1 := Step(BitProgram, Serializer, s);
            var s2 := Step(BitProgram, Serializer, s1.next);
            var s3 := Step(BitProgram, Serializer, s2.next);
            Run(s, 3) == Outcome(s3.next, s1.pins + s2.pins + s3.pins)
  {
    var s1 := Step(BitProgram, Serializer, s);
    var s2 := Step(BitProgram, Serializer, s1.next);
    var s3 := Step(BitProgram, Serializer, s2.next);
    RunAdditive(BitProgram, Serializer, s, 1, 2);
    RunAdditive(BitProgram, Serializer, s1.next, 1, 1);
    RunOne(BitProgram, Serializer, s);
    RunOne(BitProgram, Serializer, s1.next);
    RunOne(BitProgram, Serializer, s2.next);
    assert s1.pins + (s2.pins + s3.pins) == s1.pins + s2.pins + s3.pins;
  }

  /**
   * One data bit: when a bit is available (the OSR still holds bits, or the
   * FIFO can refill it), three instructions put the pulse of the OSR's top
   * bit on the line and return to bitloop with the OSR shifted by one.
   */
  lemma OneBit(s: State)
    requires AtBitloop(s) && !OutStalls(Serializer, s)
    ensures var t := Autopull(Serializer, s);
            var o := Run(s, StepsPerBit);
            o.pins == BitWave(t.osr[0]) &&
            o.next.pc == Bitloop && o.next.osr == t.osr[1..] + [false] &&
            o.next.outCount == t.outCount + 1 && o.next.txFifo == t.txFifo
  {
    ThreeSteps(s);
    var t := Autopull(Serializer, s);
    StepOut(s);
    var s1 := Step(BitProgram, Serializer, s);
    OneBitZero(t.osr[0]);
    StepBranch(s1.next);
    var s2 := Step(BitProgram, Serializer, s1.next);
    if t.osr[0] {
      StepDoOne(s2.next);
      assert Repeat(Low, 3) + Repeat(High, 2) + Repeat(High, 5) == Repeat(Low, 3) + Repeat(High, 7);
    } else {
      StepDoZero(s2.next);
    }
  }

  /**
   * While the OSR still holds bits of the current pixel (fewer than 24
   * shifted out), the program sends the remaining ones, top first, one
   * pulse each, and stops at bitloop with the count at the threshold,
   * without touching the FIFO.
   */
  lemma {:induction false} RestOfWord(s: State)
    requires AtBitloop(s) && s.outCount <= BitsPerPixel
    ensures var n := BitsPerPixel - s.outCount;
            var o := Run(s, StepsPerBit * n);
            o.pins == Wave(s.osr[..n]) &&
            o.next.pc == Bitloop && o.next.outCount == BitsPerPixel && o.next.txFifo == s.txFifo
    decreases BitsPerPixel - s.outCount, 1
  {
    if s.outCount == BitsPerPixel {
      assert Run(s, 0) == Outcome(s, []);
    } else {
      assert Autopull(Serializer, s) == s;
      BitThenRest(s);
    }
  }

  /**
   * The next bit of the pixel, refilled from the FIFO if the OSR is used up,
   * and the rest of the pixel after it: the OSR's remaining bits up to the
   * threshold go out top first.
   */
  lemma {:induction false} BitThenRest(s: State)
    requires AtBitloop(s) && !OutStalls(Serializer, s)
    ensures var t := Autopull(Serializer, s);
            var n := BitsPerPixel - t.outCount;
            var o := Run(s, StepsPerBit * n);
            t.outCount < BitsPerPixel &&
            o.pins == Wave(t.osr[..n]) &&
            o.next.pc == Bitloop && o.next.outCount == BitsPerPixel && o.next.txFifo == t.txFifo
    decreases BitsPerPixel - Autopull(Serializer, s).outCount, 0
  {
    var t := Autopull(Serializer, s);
    var n := BitsPerPixel - t.outCount;
    OneBit(s);
    var o1 := Run(s, StepsPerBit);
    RestOfWord(o1.next);
    BitThenBits(s, n - 1);
    ShiftedWave(t.osr, n);
  }

  /** The wave of n bits of the OSR is the first bit's pulse, then n - 1 bits of the OSR shifted by one. */
  lemma ShiftedWave(osr: Word, n: nat)
    requires 0 < n <= BitsPerPixel
    ensures Wave(osr[..n]) == BitWave(osr[0]) + Wave((osr[1..] + [false])[..n - 1])
  {
    WaveCons(osr, n);
    assert (osr[1..] + [false])[..n - 1] == osr[1..n];
  }

  /** Running the steps of 1 + m bits is running one bit's steps, then m bits' steps. */
  lemma BitThenBits(s: State, m: nat)
    requires ValidState(BitProgram, s)
    ensures var o1 := Run(s, StepsPerBit);
            var o2 := Run(o1.next, StepsPerBit * m);
            Run(s, StepsPerBit * (m + 1)) == Outcome(o2.next, o1.pins + o2.pins)
  {
    RunAdditive(BitProgram, Serializer, s, StepsPerBit, StepsPerBit * m);
    assert StepsPerBit + StepsPerBit * m == StepsPerBit * (m + 1);
  }

  /** The wave of a prefix of n > 0 bits is the first bit's pulse followed by the rest. */
  lemma WaveCons(bits: seq<bool>, n: nat)
    requires 0 < n <= |bits|
    ensures Wave(bits[..n]) == BitWave(bits[0]) + Wave(bits[1..n])
  {
    assert bits[..n][1..] == bits[1..n];
  }

  /**
   * A pixel: with the previous word used up and a word w at the head of the
   * FIFO, 72 instructions pull w and send its bits 31 down to 8, top first,
   * and leave the machine at bitloop with w removed from the FIFO.
   */
  lemma PixelOnWire(s: State)
    requires AtBitloop(s) && s.outCount >= BitsPerPixel && s.txFifo != []
    ensures var o := Run(s, StepsPerBit * BitsPerPixel);
            o.pins == Wave(s.txFifo[0][..BitsPerPixel]) &&
            o.next.pc == Bitloop && o.next.outCount == BitsPerPixel && o.next.txFifo == s.txFifo[1..]
  {
    var t := Autopull(Serializer, s);
    assert t.osr == s.txFifo[0] && t.outCount == 0 && t.txFifo == s.txFifo[1..];
    BitThenRest(s);
  }

  /** The bits a left-shifting OSR with threshold 24 sends for a run of words. */
  function StreamBits(words: seq<Word>): (bits: seq<bool>)
    ensures |bits| == BitsPerPixel * |words|
  {
    if words == [] then [] else words[0][..BitsPerPixel] + StreamBits(words[1..])
  }

  /**
   * Any run of k words in the FIFO leaves it in FIFO order, one word per 24
   * bits, each word contributing its bits 31 down to 8; no word is skipped
   * and none is sent twice.
   */
  lemma {:induction false} StreamOnWire(s: State, k: nat)
    requires AtBitloop(s) && s.outCount >= BitsPerPixel && k <= |s.txFifo|
    ensures var o := Run(s, StepsPerBit * BitsPerPixel * k);
            o.pins == Wave(StreamBits(s.txFifo[..k])) &&
            o.next.pc == Bitloop && o.next.outCount >= BitsPerPixel && o.next.txFifo == s.txFifo[k..]
    decreases k
  {
    if k == 0 {
      assert Run(s, 0) == Outcome(s, []);
      assert s.txFifo[..0] == [];
    } else {
      var pixel := StepsPerBit * BitsPerPixel;
      PixelOnWire(s);
      var o1 := Run(s, pixel);
      StreamOnWire(o1.next, k - 1);
      RunAdditive(BitProgram, Serializer, s, pixel, pixel * (k - 1));
      assert pixel + pixel * (k - 1) == pixel * k;
      StreamBitsSplit(s.txFifo, k);
      WaveAppend(s.txFifo[0][..BitsPerPixel], StreamBits(s.txFifo[1..][..k - 1]));
    }
  }

  /** The first word's bits, then those of the rest. */
  lemma StreamBitsSplit(words: seq<Word>, k: nat)
    requires 0 < k <= |words|
    ensures StreamBits(words[..k]) == words[0][..BitsPerPixel] + StreamBits(words[1..][..k - 1])
    ensures words[1..][k - 1..] == words[k..]
  {
    assert words[..k][1..] == words[1..][..k - 1];
  }

  /**
   * With the OSR used up and the FIFO empty the `out` stalls: every cycle
   * the line is driven low and nothing else changes.
   */
  lemma {:induction false} StarvedIdlesLow(s: State, n: nat)
    requires AtBitloop(s) && OutStalls(Serializer, s)
    ensures Run(s, n).pins == Repeat(Low, n)
    ensures Run(s, n).next == if n == 0 then s else s.(pin := Low)
    decreases n
  {
    if n == 0 {
      assert Run(s, 0) == Outcome(s, []);
    } else {
      StepOutStalled(s);
      RunOne(BitProgram, Serializer, s);
      RunAdditive(BitProgram, Serializer, s, 1, n - 1);
      StarvedIdlesLow(s.(pin := Low), n - 1);
    }
  }

  /**
   * Once a run of n steps has left the machine starved at bitloop, every
   * further cycle is low: the pins of n + gap steps are those of the n steps
   * followed by gap low cycles.
   */
  lemma IdleAfter(s: State, n: nat, gap: nat)
    requires AtBitloop(s)
    requires var o := Run(s, n); AtBitloop(o.next) && OutStalls(Serializer, o.next)
    ensures Run(s, n + gap).pins == Run(s, n).pins + Repeat(Low, gap)
  {
    StarvedIdlesLow(Run(s, n).next, gap);
    RunAdditive(BitProgram, Serializer, s, n, gap);
  }
}
