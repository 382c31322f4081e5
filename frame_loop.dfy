/**
 * The firmware's main loop (src/main.rs): a strip of NUM_LEDS pixels, all
 * set to the test colour, sent frame after frame to the WS2812 state
 * machine by writing each pixel's packed word into the TX FIFO and spinning
 * while the FIFO is full.
 */
module FrameLoop {
  import opened Bits
  import opened Color
  import opened Fifo
  import Pio
  import opened Ws2812
  import opened PixelWire

  const NumLeds: nat := 8

  /** `Rgb::new(255, 0, 0)`, the colour every pixel of the strip is set to. */
  const TestColor: Rgb := New(255, 0, 0)

  /** `[test_color; NUM_LEDS]`. */
  method InitStrip() returns (strip: array<Rgb>)
    ensures fresh(strip)
    ensures strip.Length == NumLeds && forall i :: 0 <= i < NumLeds ==> strip[i] == TestColor
  {
    strip := new Rgb[NumLeds](_ => TestColor);
  }

  /** The words one frame writes to the FIFO: each pixel's `to_grb24`, in strip order. */
  function FrameWords(strip: seq<Rgb>): (words: seq<bv32>)
    ensures |words| == |strip|
    ensures forall i :: 0 <= i < |strip| ==> words[i] == ToGrb24(strip[i])
  {
    if strip == [] then [] else [ToGrb24(strip[0])] + FrameWords(strip[1..])
  }

  /** The words of one more pixel. */
  lemma FrameWordsSnoc(strip: seq<Rgb>, i: nat)
    requires i < |strip|
    ensures FrameWords(strip[..i + 1]) == FrameWords(strip[..i]) + [ToGrb24(strip[i])]
  {
    var a, b := FrameWords(strip[..i + 1]), FrameWords(strip[..i]) + [ToGrb24(strip[i])];
    assert |a| == |b|;
    forall k | 0 <= k < |a|
      ensures a[k] == b[k]
    {
    }
  }

  /**
   * One pass of `for led in &strip { while !tx.write(led.to_grb24()) {} }`.
   * The state machine runs alongside and drains the FIFO; here each failed
   * write is followed by one autopull, which makes room, so the retry
   * succeeds. Every pixel's word is accepted exactly once, in strip order,
   * and nothing is dropped.
   */
  method SendFrame(strip: array<Rgb>, tx: TxFifo)
    requires tx.Valid()
    modifies tx
    ensures tx.Valid()
    ensures tx.Accepted() == old(tx.Accepted()) + FrameWords(strip[..])
  {
    for i := 0 to strip.Length
      invariant tx.Valid()
      invariant tx.Accepted() == old(tx.Accepted()) + FrameWords(strip[..i])
    {
      var word := ToGrb24(strip[i]);
      FrameWordsSnoc(strip[..], i);
      var accepted := tx.Write(word);
      while !accepted
        invariant tx.Valid()
        invariant !accepted ==> |tx.queue| == tx.capacity
        invariant tx.Accepted() == old(tx.Accepted()) + FrameWords(strip[..i]) + (if accepted then [word] else [])
        decreases if accepted then 0 else 1
      {
        var _ := tx.Pull();
        accepted := tx.Write(word);
      }
      assert strip[..i + 1] == strip[..][..i + 1];
    }
    assert strip[..] == strip[..][..strip.Length];
  }

  /** The words of `frames` identical frames, back to back. */
  function FramesWords(frame: seq<bv32>, frames: nat): seq<bv32>
  {
    if frames == 0 then [] else FramesWords(frame, frames - 1) + frame
  }

  /** The firmware's endless `loop`, cut off after `frames` iterations. */
  method SendFrames(strip: array<Rgb>, tx: TxFifo, frames: nat)
    requires tx.Valid()
    modifies tx
    ensures tx.Valid()
    ensures tx.Accepted() == old(tx.Accepted()) + FramesWords(FrameWords(strip[..]), frames)
  {
    var n := 0;
    while n < frames
      invariant n <= frames
      invariant tx.Valid()
      invariant tx.Accepted() == old(tx.Accepted()) + FramesWords(FrameWords(strip[..]), n)
    {
      SendFrame(strip, tx);
      assert FramesWords(FrameWords(strip[..]), n + 1) == FramesWords(FrameWords(strip[..]), n) + FrameWords(strip[..]);
      n := n + 1;
    }
  }

  /**
   * The firmware from `sm.start()` on: a fresh TX FIFO, the test strip,
   * and `frames` passes of the main loop.
   */
  method Firmware(frames: nat) returns (tx: TxFifo, strip: array<Rgb>)
    ensures fresh(tx) && fresh(strip) && tx.Valid()
    ensures strip[..] == TestStrip()
    ensures tx.Accepted() == FramesWords(FrameWords(TestStrip()), frames)
  {
    tx := new TxFifo(TxDepth);
    strip := InitStrip();
    assert strip[..] == TestStrip();
    SendFrames(strip, tx, frames);
  }

  /** The strip as initialised. */
  function TestStrip(): (strip: seq<Rgb>)
    ensures |strip| == NumLeds && forall i :: 0 <= i < NumLeds ==> strip[i] == TestColor
  {
    seq(NumLeds, _ => TestColor)
  }

  /** Every frame of the test strip is eight words 0x00FF00. */
  lemma TestFrameWords()
    ensures var words := FrameWords(TestStrip());
            |words| == NumLeds && forall i :: 0 <= i < NumLeds ==> words[i] == 0x00_FF00
  {
    NamedColorWords();
  }

  /** The FIFO entries the state machine sees for words written by the firmware. */
  function Entries(words: seq<bv32>): (entries: seq<Word>)
    ensures |entries| == |words|
  {
    if words == [] then [] else [WordBits(words[0])] + Entries(words[1..])
  }

  /** The serializer's bits for FIFO entries are the per-word bits the pixels receive. */
  lemma {:induction false} EntriesStream(words: seq<bv32>)
    ensures StreamBits(Entries(words)) == SentStream(words)
  {
    if words != [] {
      EntriesStream(words[1..]);
      assert Entries(words)[1..] == Entries(words[1..]);
    }
  }

  /**
   * Words on the wire: with words written by the firmware queued in the FIFO
   * (and the previous word used up), the state machine sends each word's
   * pixel bits in order, 72 instructions per word, and empties the FIFO.
   */
  lemma WordsOnWire(s: Pio.State, words: seq<bv32>)
    requires AtBitloop(s) && s.outCount >= BitsPerPixel && s.txFifo == Entries(words)
    ensures var o := Run(s, StepsPerBit * BitsPerPixel * |words|);
            o.pins == Wave(SentStream(words)) &&
            o.next.pc == Bitloop && o.next.outCount >= BitsPerPixel && o.next.txFifo == []
  {
    AllQueuedOnWire(s);
    EntriesStream(words);
  }

  /** Everything in the FIFO goes out, in order, and the FIFO ends empty. */
  lemma AllQueuedOnWire(s: Pio.State)
    requires AtBitloop(s) && s.outCount >= BitsPerPixel
    ensures var o := Run(s, StepsPerBit * BitsPerPixel * |s.txFifo|);
            o.pins == Wave(StreamBits(s.txFifo)) &&
            o.next.pc == Bitloop && o.next.outCount >= BitsPerPixel && o.next.txFifo == []
  {
    StreamOnWire(s, |s.txFifo|);
    assert s.txFifo[..|s.txFifo|] == s.txFifo;
  }

  /**
   * From the state after `sm.start()`, with words written by the firmware
   * queued in the FIFO, the line carries each word's pixel bits in order.
   */
  lemma WordsFromStart(words: seq<bv32>)
    ensures var o := Run(Start.(txFifo := Entries(words)), StepsPerBit * BitsPerPixel * |words|);
            o.pins == Wave(SentStream(words)) &&
            o.next.pc == Bitloop && o.next.outCount >= BitsPerPixel && o.next.txFifo == []
  {
    var s := Start.(txFifo := Entries(words));
    StartReady(s.txFifo);
    WordsOnWire(s, words);
  }

  /** The state after `sm.start()` is at bitloop with the OSR used up, whatever the FIFO holds. */
  lemma StartReady(entries: seq<Word>)
    ensures AtBitloop(Start.(txFifo := entries)) && Start.(txFifo := entries).outCount >= BitsPerPixel
  {
  }

  /**
   * A frame and the gap after it: from s, the state after `sm.start()` with
   * the frame's words queued, the words go out in order during the frame (72
   * instructions per queued word), and then, with the FIFO empty, the line
   * stays low for as many cycles as the wait lasts, which WS2812 pixels take
   * as the reset that latches the frame.
   */
  lemma FrameThenIdle(s: Pio.State, words: seq<bv32>, gap: nat)
    requires s == Start.(txFifo := Entries(words))
    ensures var frame := StepsPerBit * BitsPerPixel * |s.txFifo|;
            Run(s, frame).pins == Wave(SentStream(words)) &&
            Run(s, frame + gap).pins == Run(s, frame).pins + Pio.Repeat(Pio.Low, gap)
  {
    StartReady(s.txFifo);
    WordsThenIdle(s, words, gap);
  }

  /** The same from any state at bitloop with the previous word used up. */
  lemma WordsThenIdle(s: Pio.State, words: seq<bv32>, gap: nat)
    requires AtBitloop(s) && s.outCount >= BitsPerPixel && s.txFifo == Entries(words)
    ensures var frame := StepsPerBit * BitsPerPixel * |s.txFifo|;
            Run(s, frame).pins == Wave(SentStream(words)) &&
            Run(s, frame + gap).pins == Run(s, frame).pins + Pio.Repeat(Pio.Low, gap)
  {
    QueueThenIdle(s, gap);
    EntriesStream(words);
  }

  /**
   * The FIFO's words go out in order, and then the line stays low: the pins
   * of a run that lasts the queued words' time plus gap cycles are those of
   * the words followed by gap low cycles.
   */
  lemma QueueThenIdle(s: Pio.State, gap: nat)
    requires AtBitloop(s) && s.outCount >= BitsPerPixel
    ensures var frame := StepsPerBit * BitsPerPixel * |s.txFifo|;
            Run(s, frame).pins == Wave(StreamBits(s.txFifo)) &&
            Run(s, frame + gap).pins == Run(s, frame).pins + Pio.Repeat(Pio.Low, gap)
  {
    AllQueuedOnWire(s);
    IdleAfter(s, StepsPerBit * BitsPerPixel * |s.txFifo|, gap);
  }

  /** As written, the red test strip lights up blue, pixel by pixel. */
  lemma TestStripShowsBlue()
    ensures var shown := Shown(SentStream(FrameWords(TestStrip())));
            |shown| == NumLeds && forall i :: 0 <= i < NumLeds ==> shown[i] == Blue
  {
    var words := FrameWords(TestStrip());
    ShownStream(words);
    assert TestColor == Red;
    RedArrivesAsBlue();
  }

  /** The words of a frame when each packed colour is first aligned to the top of the word. */
  function AlignedFrameWords(strip: seq<Rgb>): (words: seq<bv32>)
    ensures |words| == |strip|
    ensures forall i :: 0 <= i < |strip| ==> words[i] == AlignedWord(strip[i])
  {
    if strip == [] then [] else [AlignedWord(strip[0])] + AlignedFrameWords(strip[1..])
  }

  /** With aligned words every pixel shows its own colour. */
  lemma AlignedStripShown(strip: seq<Rgb>)
    ensures Shown(SentStream(AlignedFrameWords(strip))) == strip
  {
    var words := AlignedFrameWords(strip);
    ShownStream(words);
    forall i | 0 <= i < |strip|
      ensures Shown(SentStream(words))[i] == strip[i]
    {
      AlignedPixel(strip[i]);
    }
  }
}
