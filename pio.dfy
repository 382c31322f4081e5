/**
 * An RP2040 PIO state machine, reduced to the instructions and the output
 * shift register features the WS2812 driver uses (chapter 3 of the RP2040
 * datasheet): `out x, n`, `jmp !x`, `jmp`, `nop`, an optional one-pin
 * side-set, per-instruction delay, program wrapping, the output shift
 * register (OSR) with its shift count, autopull and the TX FIFO.
 *
 * One call of Step executes (or stalls) one instruction and reports the pin
 * level for each state-machine clock cycle that instruction occupies.
 *
 * The 32-bit registers x and OSR and the 32-bit entries of the TX FIFO are
 * held as their 32 bits, bit 31 first (Bits.Word).
 */
module Pio {
  import opened Wrappers
  import opened Bits

  datatype Level = Low | High

  /** Instructions; jump targets are addresses relative to the program start. */
  datatype Op =
    | OutX(bitCount: nat)        // out x, bitCount
    | JmpNotX(target: nat)       // jmp !x target
    | Jmp(target: nat)           // jmp target
    | Nop                        // nop

  /** An instruction with its side-set value (if given) and its delay cycles. */
  datatype Instr = Instr(op: Op, sideSet: Option<Level>, delay: nat)

  /** After executing `wrapSource` without jumping, control goes to `wrapTarget`. */
  datatype Program = Program(instrs: seq<Instr>, wrapTarget: nat, wrapSource: nat)

  datatype ShiftDirection = ShiftLeft | ShiftRight

  /** The OSR part of the state machine's configuration. */
  datatype Config = Config(outShift: ShiftDirection, autopull: bool, pullThreshold: nat)

  /**
   * Program counter, scratch register x, output shift register, output shift
   * count (32 = empty), TX FIFO contents (head first) and the side-set pin.
   */
  datatype State = State(pc: nat, x: Word, osr: Word, outCount: nat, txFifo: seq<Word>, pin: Level)

  /** A register of n clear bits. */
  function Zeros(n: nat): seq<bool>
  {
    seq(n, k => false)
  }

  /** The register's value is zero: no bit is set. */
  predicate IsZero(r: seq<bool>) {
    forall k :: 0 <= k < |r| ==> !r[k]
  }

  /** What one or more steps produce: the new state and the pin level per cycle. */
  datatype Outcome = Outcome(next: State, pins: seq<Level>)

  predicate ValidInstr(i: Instr, size: nat) {
    i.delay < 32 &&
    match i.op
    case OutX(n) => 1 <= n <= 32
    case JmpNotX(t) => t < size
    case Jmp(t) => t < size
    case Nop => true
  }

  predicate ValidProgram(p: Program) {
    0 < |p.instrs| <= 32 &&
    p.wrapTarget <= p.wrapSource < |p.instrs| &&
    (p.wrapSource == |p.instrs| - 1 || p.instrs[|p.instrs| - 1].op.Jmp?) &&
    forall k :: 0 <= k < |p.instrs| ==> ValidInstr(p.instrs[k], |p.instrs|)
  }

  /** A pull threshold of 1..32 bits. */
  predicate ValidConfig(cfg: Config) {
    1 <= cfg.pullThreshold <= 32
  }

  predicate ValidState(p: Program, s: State) {
    s.pc < |p.instrs| && s.outCount <= 32
  }

  /** The address after `pc` when no jump is taken. */
  function NextPc(p: Program, pc: nat): nat {
    if pc == p.wrapSource then p.wrapTarget else pc + 1
  }

  /** Falling through never leaves the program. */
  lemma NextPcInRange(p: Program, pc: nat)
    requires ValidProgram(p) && pc < |p.instrs|
    ensures !p.instrs[pc].op.Jmp? ==> NextPc(p, pc) < |p.instrs|
  {
  }

  /** An `out` with autopull must wait when the OSR has reached the threshold and the FIFO is empty. */
  predicate OutStalls(cfg: Config, s: State) {
    cfg.autopull && s.outCount >= cfg.pullThreshold && s.txFifo == []
  }

  /** Autopull: once the threshold is reached, the head of the TX FIFO refills the OSR. */
  function Autopull(cfg: Config, s: State): (t: State)
    ensures t.pc == s.pc && t.pin == s.pin && t.x == s.x && t.outCount <= s.outCount
    ensures t.txFifo == s.txFifo || (s.txFifo != [] && t.txFifo == s.txFifo[1..])
  {
    if cfg.autopull && s.outCount >= cfg.pullThreshold && s.txFifo != [] then
      s.(osr := s.txFifo[0], outCount := 0, txFifo := s.txFifo[1..])
    else s
  }

  /**
   * The n bits an `out` takes from the OSR, as the value it writes to x
   * (those bits in the low end, the rest clear), and the OSR after the shift,
   * with zeros shifted in.
   */
  function Shifted(dir: ShiftDirection, osr: Word, n: nat): (Word, Word)
    requires 1 <= n <= 32
  {
    match dir
    case ShiftLeft => (Zeros(32 - n) + osr[..n], osr[n..] + Zeros(n))
    case ShiftRight => (Zeros(32 - n) + osr[32 - n..], Zeros(n) + osr[..32 - n])
  }

  /** `out x, n` after any autopull: x receives n bits from the shifting end of the OSR. */
  function ShiftOut(cfg: Config, s: State, n: nat): (t: State)
    requires 1 <= n <= 32
    ensures t.pc == s.pc && t.pin == s.pin && t.txFifo == s.txFifo && t.outCount <= 32
  {
    var (bits, rest) := Shifted(cfg.outShift, s.osr, n);
    s.(x := bits, osr := rest, outCount := if s.outCount + n > 32 then 32 else s.outCount + n)
  }

  /** Holding one level for n cycles. */
  function Repeat(l: Level, n: nat): (r: seq<Level>)
    ensures |r| == n
  {
    if n == 0 then [] else [l] + Repeat(l, n - 1)
  }

  lemma {:induction false} RepeatHolds(l: Level, n: nat)
    ensures forall k :: 0 <= k < n ==> Repeat(l, n)[k] == l
  {
    if n > 0 {
      RepeatHolds(l, n - 1);
    }
  }

  /**
   * One instruction. The side-set is applied even while an `out` stalls; a
   * stall lasts one cycle and leaves everything else unchanged, and an
   * executed instruction holds the pin for one cycle plus its delay.
   */
  function Step(p: Program, cfg: Config, s: State): (o: Outcome)
    requires ValidProgram(p) && ValidConfig(cfg) && ValidState(p, s)
    ensures ValidState(p, o.next)
    ensures 1 <= |o.pins| <= 1 + p.instrs[s.pc].delay
    ensures o.next.txFifo == s.txFifo || (s.txFifo != [] && o.next.txFifo == s.txFifo[1..])
  {
    var instr := p.instrs[s.pc];
    assert ValidInstr(instr, |p.instrs|);
    NextPcInRange(p, s.pc);
    var level := match instr.sideSet case Some(l) => l case None => s.pin;
    var s0 := s.(pin := level);
    match instr.op
    case OutX(n) =>
      if OutStalls(cfg, s0) then Outcome(s0, [level])
      else
        var t := ShiftOut(cfg, Autopull(cfg, s0), n);
        Outcome(t.(pc := NextPc(p, s.pc)), Repeat(level, 1 + instr.delay))
    case JmpNotX(target) =>
      Outcome(s0.(pc := if IsZero(s.x) then target else NextPc(p, s.pc)), Repeat(level, 1 + instr.delay))
    case Jmp(target) =>
      Outcome(s0.(pc := target), Repeat(level, 1 + instr.delay))
    case Nop =>
      Outcome(s0.(pc := NextPc(p, s.pc)), Repeat(level, 1 + instr.delay))
  }

  /** During an instruction the pin holds the level it is left at. */
  lemma StepHoldsPin(p: Program, cfg: Config, s: State)
    requires ValidProgram(p) && ValidConfig(cfg) && ValidState(p, s)
    ensures var o := Step(p, cfg, s);
            forall k :: 0 <= k < |o.pins| ==> o.pins[k] == o.next.pin
  {
    var level := match p.instrs[s.pc].sideSet case Some(l) => l case None => s.pin;
    RepeatHolds(level, 1 + p.instrs[s.pc].delay);
  }

  /** Step as a function value, defined on the valid states of a valid program. */
  function StepFn(p: Program, cfg: Config): (f: State --> Outcome)
    requires ValidProgram(p) && ValidConfig(cfg)
    ensures forall t :: ValidState(p, t) ==> f.requires(t) && ValidState(p, f(t).next)
  {
    t requires ValidState(p, t) => Step(p, cfg, t)
  }

  /** n applications of a step function that keeps the invariant inv. */
  function Iterate(f: State --> Outcome, inv: State -> bool, s: State, n: nat): (o: Outcome)
    requires inv(s)
    requires forall t :: inv(t) ==> f.requires(t) && inv(f(t).next)
    ensures inv(o.next)
    decreases n
  {
    if n == 0 then Outcome(s, [])
    else
      var first := f(s);
      var rest := Iterate(f, inv, first.next, n - 1);
      Outcome(rest.next, first.pins + rest.pins)
  }

  lemma {:induction false} IterateAdditive(f: State --> Outcome, inv: State -> bool, s: State, a: nat, b: nat)
    requires inv(s)
    requires forall t :: inv(t) ==> f.requires(t) && inv(f(t).next)
    ensures var first := Iterate(f, inv, s, a);
            var rest := Iterate(f, inv, first.next, b);
            Iterate(f, inv, s, a + b) == Outcome(rest.next, first.pins + rest.pins)
    decreases a
  {
    if a == 0 {
      assert [] + Iterate(f, inv, s, b).pins == Iterate(f, inv, s, b).pins;
    } else {
      var one := f(s);
      IterateAdditive(f, inv, one.next, a - 1, b);
      var first := Iterate(f, inv, one.next, a - 1);
      var rest := Iterate(f, inv, first.next, b);
      assert one.pins + (first.pins + rest.pins) == (one.pins + first.pins) + rest.pins;
    }
  }

  function Valid(p: Program): State -> bool {
    t => ValidState(p, t)
  }

  /** n steps in a row, with the pin level of every cycle. */
  function Run(p: Program, cfg: Config, s: State, n: nat): (o: Outcome)
    requires ValidProgram(p) && ValidConfig(cfg) && ValidState(p, s)
    ensures ValidState(p, o.next)
  {
    Iterate(StepFn(p, cfg), Valid(p), s, n)
  }

  /** Running a + b steps is running a steps and then b more. */
  lemma RunAdditive(p: Program, cfg: Config, s: State, a: nat, b: nat)
    requires ValidProgram(p) && ValidConfig(cfg) && ValidState(p, s)
    ensures var first := Run(p, cfg, s, a);
            var rest := Run(p, cfg, first.next, b);
            Run(p, cfg, s, a + b) == Outcome(rest.next, first.pins + rest.pins)
  {
    IterateAdditive(StepFn(p, cfg), Valid(p), s, a, b);
  }

  /** One step of Run is one Step. */
  lemma RunOne(p: Program, cfg: Config, s: State)
    requires ValidProgram(p) && ValidConfig(cfg) && ValidState(p, s)
    ensures Run(p, cfg, s, 1) == Step(p, cfg, s)
  {
    var one := Step(p, cfg, s);
    assert Run(p, cfg, s, 1) == Outcome(one.next, one.pins + []);
    assert one.pins + [] == one.pins;
  }

  /** Every instruction, stalled or not, occupies at least one cycle. */
  lemma {:induction false} RunCycles(p: Program, cfg: Config, s: State, n: nat)
    requires ValidProgram(p) && ValidConfig(cfg) && ValidState(p, s)
    ensures n <= |Run(p, cfg, s, n).pins|
    decreases n
  {
    if n > 0 {
      RunAdditive(p, cfg, s, 1, n - 1);
      RunOne(p, cfg, s);
      RunCycles(p, cfg, Step(p, cfg, s).next, n - 1);
    }
  }

  /**
   * The state machine consumes the TX FIFO from the front only: whatever is
   * left after any number of steps is a suffix of what was there.
   */
  lemma {:induction false} RunConsumesFromFront(p: Program, cfg: Config, s: State, n: nat)
    requires ValidProgram(p) && ValidConfig(cfg) && ValidState(p, s)
    ensures var left := Run(p, cfg, s, n).next.txFifo;
            |left| <= |s.txFifo| && left == s.txFifo[|s.txFifo| - |left|..]
    decreases n
  {
    if n > 0 {
      var one := Step(p, cfg, s);
      RunAdditive(p, cfg, s, 1, n - 1);
      RunOne(p, cfg, s);
      RunConsumesFromFront(p, cfg, one.next, n - 1);
    }
  }
}
