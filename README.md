# WS2812 driver for the Raspberry Pi Pico, modelled in Dafny

The firmware drives a strip of WS2812 ("NeoPixel") LEDs. It has two parts.

- **The serializer.** A four-instruction RP2040 PIO program turns 24 bits per pixel into the WS2812 pulse train on one GPIO pin.
- **The main loop.** It packs each pixel's colour into a 32-bit word (green, red, blue) and writes the words into the state machine's TX FIFO, spinning while the FIFO is full. It does this frame after frame.

The model has these files:

- `color.dfy`: the `Rgb` colour, `Rgb::new`, `to_grb24` and the named colours. Everything is bit-exact on `bv8`/`bv32`.
- `hue_wheel.dfy`: `rainbow`, computed in 8-bit arithmetic as in the firmware. It is proved free of wrap-around.
- `bits.dfy`: bytes and words as bit sequences, most significant bit first.
- `pio.dfy`: a PIO state machine. It covers the instructions used (`out x, n`, `jmp !x`, `jmp`, `nop`), optional side-set, delays, wrapping, the output shift register (OSR) with its shift count, autopull and the TX FIFO. A step executes one instruction and reports the pin level for every cycle it takes.
- `ws2812.dfy`: the `ws2812()` program under the firmware's configuration (shift left, autopull, threshold 24). It proves the pulse shape per bit, the bit order per word, FIFO order across words, and what the line does when the FIFO runs dry.
- `pixel_wire.dfy`: what a chain of WS2812 pixels latches from the bits it receives.
- `tx_fifo.dfy`: the firmware's view of the TX FIFO. This is a class whose `Write` refuses a word when the FIFO is full.
- `frame_loop.dfy`: the strip set-up and the frame loop of `main`, as methods with loops. It also connects the words written to what the strip shows.

The firmware writes `to_grb24` unshifted (src/main.rs:113). A left-shifting OSR with threshold 24 sends bits 31..8 of each word, so every pixel receives `0x00, green, red` and never blue. The red test strip therefore lights up blue. See "## Findings".

Some facts about the code that the model makes precise:

- The comments at src/pio_programs.rs:7 and src/main.rs:112 speak of sending 24-bit colour data. The configuration sends bits 31..8 of each word, not the low 24 bits `to_grb24` fills (see Findings).
- Every bit starts with 3 low cycles (`side 0 [2]` on the `out`), before the high pulse.
- During a stall the side-set still drives the line low, so a starved serializer holds the line low, whatever level the last bit ended on.
- On the hue wheel at least one channel is always 0. At positions 0, 85, 170 and 255 two channels are 0.

## Model

| member | source | states |
|---|---|---|
| Color.New | src/pio_programs.rs:37-39 | `Rgb::new` stores the three channels exactly as given |
| Color.ToGrb24 | src/pio_programs.rs:43-45 | the packed word equals g·2^16 + r·2^8 + b and is below 2^24, so the top byte is clear |
| Color.GrbBytes | src/pio_programs.rs:41-45 | byte 3 of the packed word is 0, byte 2 is green, byte 1 red, byte 0 blue |
| Color.ToGrb24Injective | src/pio_programs.rs:43-45 | two colours with the same packed word are the same colour |
| Color.NamedColorWords | src/pio_programs.rs:48-55 | the packed words of BLACK..MAGENTA, e.g. RED is 0x00FF00 and GREEN 0xFF0000 |
| HueWheel.Rainbow | src/pio_programs.rs:58-71 | every wheel colour has channel sum 255 and at least one channel at 0 |
| HueWheel.RainbowIsExact | src/pio_programs.rs:59-70 | the 8-bit computation equals the same segment formulas on unbounded integers (no subtraction underflows, no `pos * 3` overflows); b is 0 on 0..84, r on 85..169, g on 170..255 |
| HueWheel.RainbowLandmarks | src/pio_programs.rs:61-69 | position 0 is RED, 85 GREEN, 170 BLUE, and 255 is back at (255, 0, 0) |
| HueWheel.RainbowContinuous | src/pio_programs.rs:59-70 | one step along the wheel, 255 to 0 included, moves each channel by at most 3, across the segment seams too |
| Bits.FromByteBits | src/pio_programs.rs:41-42 | a byte read back from its eight bits, top bit first, is the byte |
| Bits.WordBitsRoundTrip | src/main.rs:75 | a word's 32 bits, bit 31 first, determine the word: WordBits is a faithful view of the OSR contents |
| Pio.Step | src/pio_programs.rs:15-24 | one instruction keeps the state valid, occupies 1 to 1 + delay cycles, and leaves the FIFO as it was or without its head |
| Pio.StepHoldsPin | src/pio_programs.rs:15 | the side-set pin holds one level for every cycle of an instruction |
| Pio.Autopull | src/main.rs:76-77 | autopull leaves pc, pin and x alone, never raises the shift count, and takes at most the FIFO's head |
| Pio.ShiftOut | src/main.rs:75 | `out` leaves pc, pin and FIFO alone and keeps the shift count at most 32 |
| Pio.RunCycles | src/pio_programs.rs:18-23 | n steps take at least n cycles: every instruction, stalled or not, costs a cycle |
| Pio.RunConsumesFromFront | src/main.rs:76-77 | after any number of steps the FIFO left over is a suffix of the original one: words leave from the front only |
| Ws2812.ShiftOutOne | src/pio_programs.rs:18 | `out x, 1` on a left-shifting OSR puts the top bit in x and moves the OSR up by one, counting one bit |
| Ws2812.StepOut | src/pio_programs.rs:18 | `out x, 1 side 0 [2]` with a bit available drives the line low for 3 cycles and goes on to the branch |
| Ws2812.StepOutStalled | src/pio_programs.rs:18 | with the OSR used up and the FIFO empty, `out` stalls for a cycle, side-set still drives the line low, and nothing else changes |
| Ws2812.StepBranch | src/pio_programs.rs:19 | `jmp !x do_zero side 1 [1]` drives the line high for 2 cycles and goes to do_zero exactly when x is 0 |
| Ws2812.StepDoOne | src/pio_programs.rs:21 | `jmp bitloop side 1 [4]` holds the line high 5 more cycles and returns to bitloop |
| Ws2812.StepDoZero | src/pio_programs.rs:23-24 | `nop side 0 [4]` drives the line low for 5 cycles, then wraps to bitloop |
| Ws2812.BitWaveShape | src/pio_programs.rs:17-24 | both bit values take 10 cycles and start with 3 low cycles; a 1 is high for 7 of them, a 0 for 2 |
| Ws2812.OneBit | src/pio_programs.rs:17-24 | three instructions emit the pulse of the OSR's top bit, return to bitloop and shift the OSR by one |
| Ws2812.RestOfWord | src/pio_programs.rs:17-24 | from shift count c ≤ 24, 3·(24 − c) instructions send the next 24 − c OSR bits top first and stop at the threshold without touching the FIFO |
| Ws2812.BitThenRest | src/main.rs:75-77 | the next bit, refilled from the FIFO when the OSR has reached the threshold, and then the rest of the pixel go out top first until the shift count is back at 24 |
| Ws2812.PixelOnWire | src/main.rs:75-77 | with the previous word used up, 72 instructions pull the FIFO's head and send its bits 31 down to 8, then drop it from the FIFO |
| Ws2812.StreamOnWire | src/main.rs:75-77 | k queued words leave in FIFO order, one per 24 bits, none skipped or repeated, and you can see no boundary between words |
| Ws2812.StarvedIdlesLow | src/pio_programs.rs:18 | with no data the machine stalls at `out` and holds the line low every cycle, changing nothing else |
| Ws2812.IdleAfter | src/pio_programs.rs:18 | once a run has left the machine stalled at `out`, running it longer only appends low cycles to the pins it already drove |
| PixelWire.ReceivedPixelBits | src/pio_programs.rs:41-42 | a pixel that receives green, red, blue bytes, top bit first, shows exactly that colour |
| PixelWire.SentBytes | src/main.rs:75-77 | the bits sent for a FIFO word are those of its bytes 3, 2 and 1 |
| PixelWire.AsWrittenPixel | src/main.rs:109-113 | for the word as written the wire carries 0x00, green, red; the pixel shows (r = g, g = 0, b = r) |
| PixelWire.RedArrivesAsBlue | src/main.rs:95-113 | the red test colour, written as the firmware writes it, is shown as BLUE |
| PixelWire.AlignedWord | src/main.rs:113 | the corrected word: bytes 3, 2 and 1 are green, red and blue, and byte 0 is clear |
| PixelWire.AlignedPixel | src/main.rs:113 | for `to_grb24() << 8` the wire carries green, red, blue and the pixel shows the colour itself |
| PixelWire.ShownStream | src/main.rs:108-116 | pixel i of the chain shows what the i-th word sent encodes, and there are as many pixels lit as words |
| Fifo.TxFifo.constructor | src/main.rs:73-79 | the FIFO starts empty with the given depth |
| Fifo.TxFifo.Write | src/main.rs:113 | `tx.write` appends the word and answers true iff the FIFO had room; on a full FIFO it answers false and changes nothing |
| Fifo.TxFifo.Pull | src/main.rs:76 | autopull takes the oldest word if there is one and records it as taken; the accepted history is unchanged |
| FrameLoop.InitStrip | src/main.rs:95-96 | a fresh array of NUM_LEDS = 8 pixels, all Rgb(255, 0, 0) |
| FrameLoop.FrameWords | src/main.rs:108-109 | a frame's words are the pixels' `to_grb24`, one per pixel, in strip order |
| FrameLoop.SendFrame | src/main.rs:108-116 | after one pass the FIFO has accepted exactly the frame's words, in order, after what it had accepted before: no word dropped or doubled |
| FrameLoop.SendFrames | src/main.rs:98-122 | after n passes of the loop the FIFO has accepted n copies of the frame's words back to back |
| FrameLoop.Firmware | src/main.rs:86-122 | from start, the strip is the test strip and the FIFO has accepted exactly n frames of its words |
| FrameLoop.TestStrip | src/main.rs:95-96 | eight copies of the test colour |
| FrameLoop.TestFrameWords | src/main.rs:95-110 | each frame of the test strip is eight words 0x00FF00 |
| FrameLoop.WordsOnWire | src/main.rs:73-116 | words written by the firmware and queued in order reach the wire in that order, 72 instructions per word; the FIFO is emptied and the machine is back at bitloop with the OSR used up, ready to stall |
| FrameLoop.WordsFromStart | src/main.rs:86-116 | from the state after `sm.start()` (bitloop, OSR used up, line low) with firmware words queued, the line carries each word's pixel bits in order, the FIFO ends empty and the OSR is used up |
| FrameLoop.FrameThenIdle | src/main.rs:86-119 | from the state after `sm.start()` with a frame's words queued, the line carries the words' pulses in order, then stays low for every cycle of the wait that follows |
| FrameLoop.WordsThenIdle | src/main.rs:108-119 | the same from any state at bitloop with the previous word used up: the frame's pulses, then a low line for the whole gap |
| FrameLoop.QueueThenIdle | src/main.rs:108-119 | whatever words sit in the FIFO go out in order during their 72 instructions each, and after them the line is low for every further cycle |
| FrameLoop.TestStripShowsBlue | src/main.rs:94-116 | as written, all eight pixels of the red test strip show BLUE |
| FrameLoop.AlignedFrameWords | src/main.rs:108-113 | the corrected frame: each pixel's packed colour shifted into the top 24 bits, in strip order |
| FrameLoop.AlignedStripShown | src/main.rs:108-113 | with the corrected words the strip shows exactly its own colours |

## Left out

- Hardware bring-up is left out: clocks and PLLs, GPIO and pad set-up, `set_pindirs`, the watchdog and `unwrap` panics. It is I/O with no logic of its own.
- Logging (`info!`), the heartbeat LED and every `delay_ms` are left out. They are side effects on other devices, or waiting. The frame-end gap is covered by FrameLoop.FrameThenIdle: once the queued words are sent and the FIFO is empty, the line stays low for as long as the delay lasts.
- Absolute timing is left out: the clock divisor (6 + 25/256) and nanosecond pulse widths. Time is counted in state-machine cycles.
- The binary encoding of PIO instructions is left out, and so is the delay width that side-set takes away. The program is modelled as a list of decoded instructions.
- The model makes no claims about PIO features the program does not use. These are other instructions, `pull`/`push`, the input shift register, joined FIFOs and right-shift pull bits beyond `Shifted`.
- Real concurrency between the CPU and the state machine is left out. In FrameLoop.SendFrame each failed write is followed by exactly one pull, which stands in for the state machine draining the FIFO while the CPU spins. The number of spins and the interleaving are not modelled. The wire-level lemmas (Ws2812.StreamOnWire, FrameLoop.WordsOnWire) take the queued words as given.
- Autopull timing: the model refills the OSR at the `out` that needs a bit. The hardware may refill earlier, but the same word is taken in the same order.
- The firmware's `loop` never ends. FrameLoop.SendFrames and FrameLoop.Firmware run it for any given number of frames.
- The strip is never changed after set-up. `rainbow` is imported at src/main.rs:23 but never called, so it is modelled and proved on its own, not as part of the frame loop.
- Pio.Autopull and Pio.ShiftOut: their contracts state only what the steps leave unchanged. The exact effect of the Ws2812 configuration is stated by Ws2812.ShiftOutOne and Ws2812.StepOut.
- Ws2812.StreamOnWire, FrameLoop.WordsOnWire, FrameLoop.WordsFromStart, FrameLoop.FrameThenIdle, FrameLoop.WordsThenIdle and FrameLoop.QueueThenIdle assume all the words are in the FIFO before the run starts. Pio.State does not bound its FIFO by the hardware depth of 4 (Fifo.TxDepth), so a frame of 8 words can sit in it at once, which the real FIFO never holds.
  - In the firmware the words arrive while earlier ones are being sent. A word written after the FIFO has run dry shows up as extra low cycles (Ws2812.StarvedIdlesLow) between two pixels.
  - The model does not prove that words arriving during a run give the same pulses.
  - The word `Fifo.TxFifo.Pull` returns in FrameLoop.SendFrame is not fed into the state machine model. The two FIFO models are linked only through the accepted history and FrameLoop.Entries.

## Findings

| source | as written | input that shows it | evidently intended | confidence | as-written member | corrected member |
|---|---|---|---|---|---|---|
| src/main.rs:113 | `tx.write(grb_data)` with `grb_data = to_grb24()` in bits 23..0. With `out_shift_direction(Left)` and `pull_threshold(24)` the serializer sends bits 31..8, so each pixel gets 0x00, green, red, and blue is never sent | `Rgb::new(255, 0, 0)`, the test colour: word 0x00FF00, pixel shows (0, 0, 255) | write `to_grb24() << 8`, so that green, red and blue occupy bits 31..8 and reach the pixel in GRB order | high (not executed) | PixelWire.AsWrittenPixel | PixelWire.AlignedPixel |
