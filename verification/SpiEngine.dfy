/** artix_spi.vhd: a write latch, a clock divider and a shift register that sends 64
    bits for each write, seen by a receiver on the other end of the wires. */
module SpiEngine {
  import opened Octets
  import opened Binary

  /** The divider counts 0..10, so the shift engine acts at one edge in eleven. */
  const PERIOD := 11
  const BITS := 64

  datatype State = IDLE | CLKP1 | CLKP2 | SETSYNC

  datatype Pins = Pins(cs: bool, sclk: bool, dout: bool)

  datatype Regs = Regs(count: nat, enable: bool, latched: bool, clear: bool, data: seq<bool>,
                       state: State, treg: seq<bool>, bcnt: nat, pins: Pins, rreg: seq<bool>, done: bool)

  type Word64 = w: seq<bool> | |w| == BITS witness Zeros(BITS)

  /** The bus registers: we, and the word made of addr and dout; and the input pin. */
  datatype Input = Input(we: bool, word: Word64, din: bool)

  /** spi_data: a write bit 0, the low 31 bits of the address, the data. */
  function WordOf(addr: Word32, data: Word32): Word64 {
    [false] + Digits(addr, 31) + Digits(data, 32)
  }

  function Shifted(treg: seq<bool>): (t: seq<bool>)
    requires |treg| == BITS
    ensures |t| == BITS
  {
    seq(BITS, i requires 0 <= i < BITS => i < BITS - 1 && treg[i + 1])
  }

  /** rreg(30 downto 0) & din. */
  function ShiftedIn(rreg: seq<bool>, din: bool): (t: seq<bool>)
    requires |rreg| == 32
    ensures |t| == 32
  {
    seq(32, i requires 0 <= i < 32 => if i < 31 then rreg[i + 1] else din)
  }

  predicate Valid(r: Regs) {
    && r.count <= 10 && (r.enable <==> r.count == 0)
    && |r.data| == BITS && |r.treg| == BITS && r.bcnt < BITS && |r.rreg| == 32
  }

  /** The spi transfer process at an enabled edge. */
  function Act(r: Regs, din: bool): (r': Regs)
    requires Valid(r)
    ensures |r'.treg| == BITS && r'.bcnt < BITS && |r'.rreg| == 32
  {
    match r.state
    case IDLE =>
      if r.latched then r.(clear := false, done := false, pins := Pins(false, false, false), treg := r.data, bcnt := 63, state := CLKP1)
      else r.(clear := false, done := false, pins := Pins(true, false, false))
    case CLKP1 => r.(pins := r.pins.(sclk := false, dout := r.treg[0]), treg := Shifted(r.treg), state := CLKP2)
    case CLKP2 =>
      var read := r.(pins := r.pins.(sclk := true), rreg := ShiftedIn(r.rreg, din));
      if r.bcnt == 0 then read.(done := true, clear := true, state := SETSYNC)
      else read.(bcnt := r.bcnt - 1, state := CLKP1)
    case SETSYNC => r.(pins := r.pins.(sclk := false, cs := true), state := IDLE)
  }

  /** At other edges the transfer rests. */
  function Acted(r: Regs, din: bool): (r': Regs)
    requires Valid(r)
    ensures Valid(r')
    ensures r'.count == r.count && r'.enable == r.enable && r'.latched == r.latched && r'.data == r.data
  {
    if r.enable then Act(r, din) else r
  }

  /** One rising clock edge, up to the next: the latch, the transfer and the divider each
      read the values from before it. The clear is asynchronous: the latch is empty
      whenever it is up, before or after the edge. */
  function Step(r: Regs, i: Input): (r': Regs)
    requires Valid(r)
    ensures Valid(r')
  {
    var a := Acted(r, i.din);
    var cleared := r.clear || a.clear;
    a.(latched := !cleared && (i.we || r.latched),
       data := if cleared then Zeros(BITS) else if i.we then i.word else r.data,
       count := if r.count == 10 then 0 else r.count + 1,
       enable := r.count == 10)
  }

  /** The VHDL gives the pins no initial value. */
  predicate PowerUp(r: Regs) {
    Valid(r) && r.count == 0 && !r.latched && !r.clear && r.state == IDLE
  }

  class Engine {
    var clk_cnt: nat
    var clk_enb: bool
    var we_lat: bool
    var we_lat_clr: bool
    var spi_data: seq<bool>
    var state: State
    var treg: seq<bool>
    var bcnt: nat
    var cs: bool
    var sclk: bool
    var dout: bool
    var rreg: seq<bool>
    var xfer_done: bool

    function Now(): Regs
      reads this
    {
      Regs(clk_cnt, clk_enb, we_lat, we_lat_clr, spi_data, state, treg, bcnt, Pins(cs, sclk, dout), rreg, xfer_done)
    }

    constructor ()
      ensures PowerUp(Now())
    {
      clk_cnt, clk_enb, we_lat, we_lat_clr := 0, true, false, false;
      spi_data, state, treg, bcnt := Zeros(BITS), IDLE, Zeros(BITS), 0;
      rreg, xfer_done := Zeros(32), false;
    }

    /** The spi transfer process, at an enabled edge. */
    method Transfer(din: bool)
      requires Valid(Now())
      modifies this`state, this`treg, this`bcnt, this`cs, this`sclk, this`dout, this`we_lat_clr, this`rreg, this`xfer_done
      ensures Now() == Act(old(Now()), din)
    {
      match state
      case IDLE => Begin(din);
      case CLKP1 => sclk, state, treg, dout := false, CLKP2, Shifted(treg), treg[0];
      case CLKP2 => Rise(din);
      case SETSYNC => sclk, cs, state := false, true, IDLE;
    }

    method Begin(ghost din: bool)
      requires Valid(Now()) && state == IDLE
      modifies this`state, this`treg, this`bcnt, this`cs, this`sclk, this`dout, this`we_lat_clr, this`xfer_done
      ensures Now() == Act(old(Now()), din)
    {
      dout, sclk, cs, xfer_done, we_lat_clr := false, false, true, false, false;
      if we_lat {
        cs, treg, bcnt, state := false, spi_data, 63, CLKP1;
      }
    }

    method Rise(din: bool)
      requires Valid(Now()) && state == CLKP2
      modifies this`state, this`bcnt, this`sclk, this`we_lat_clr, this`rreg, this`xfer_done
      ensures Now() == Act(old(Now()), din)
    {
      sclk, rreg := true, ShiftedIn(rreg, din);
      if bcnt == 0 {
        xfer_done, we_lat_clr, state := true, true, SETSYNC;
      } else {
        bcnt, state := bcnt - 1, CLKP1;
      }
    }

    /** The write latch at an edge, and its asynchronous clear before and after it. */
    method Latch(clear: bool, we: bool, word: Word64)
      requires Valid(Now())
      modifies this`spi_data, this`we_lat
      ensures Now() == old(Now()).(latched := !clear && (we || old(we_lat)),
                                   data := if clear then Zeros(BITS) else if we then word else old(spi_data))
    {
      if clear {
        spi_data, we_lat := Zeros(BITS), false;
      } else if we {
        spi_data, we_lat := word, true;
      }
    }

    method Divide()
      modifies this`clk_cnt, this`clk_enb
      ensures Now() == old(Now()).(count := if old(clk_cnt) == 10 then 0 else old(clk_cnt) + 1, enable := old(clk_cnt) == 10)
    {
      if clk_cnt == 10 {
        clk_cnt, clk_enb := 0, true;
      } else {
        clk_cnt, clk_enb := clk_cnt + 1, false;
      }
    }

    method Advance(din: bool)
      requires Valid(Now())
      modifies this`state, this`treg, this`bcnt, this`cs, this`sclk, this`dout, this`we_lat_clr, this`rreg, this`xfer_done
      ensures Now() == Acted(old(Now()), din) && Valid(Now())
    {
      if clk_enb {
        Transfer(din);
      }
    }

    /** A rising edge of clk. */
    method Edge(we: bool, word: Word64, din: bool)
      requires Valid(Now())
      modifies this
      ensures Now() == Step(old(Now()), Input(we, word, din)) && Valid(Now())
    {
      var clear := we_lat_clr;
      Advance(din);
      Latch(clear || we_lat_clr, we, word);
      Divide();
    }
  }

  // --- The receiver ---------------------------------------------------------------

  /** The other end: it takes dout whenever sclk rises with cs low, and a word is what
      came between a falling and a rising cs. */
  datatype Receiver = Receiver(words: seq<seq<bool>>, current: seq<bool>)

  /** The words and one more. */
  function Plus(words: seq<seq<bool>>, word: seq<bool>): (r: seq<seq<bool>>)
    ensures |r| == |words| + 1 && r[|words|] == word
    ensures forall i | 0 <= i < |words| :: r[i] == words[i]
  {
    seq(|words| + 1, i requires 0 <= i < |words| + 1 => if i < |words| then words[i] else word)
  }

  function Sample(x: Receiver, was: Pins, now: Pins): Receiver {
    if now.cs then if was.cs then x else Receiver(Plus(x.words, x.current), [])
    else
      var current := if was.cs then [] else x.current;
      x.(current := if !was.sclk && now.sclk then current + [now.dout] else current)
  }

  // --- The stages of a transfer ------------------------------------------------------

  /** Where a transfer stands: latched but not begun; k bits sent; bit k on dout, clock
      low; all sent; cs high while the latch is held clear; ready for the next. */
  datatype Stage = Latched | Low(k: nat) | High(k: nat) | Sync | Clearing | Ready

  /** How many enabled edges are still to come before the engine is ready. */
  function ActsLeft(g: Stage): int {
    match g
    case Latched => 131
    case Low(k) => 130 - 2 * k
    case High(k) => 129 - 2 * k
    case Sync => 2
    case Clearing => 1
    case Ready => 0
  }

  /** The edges from now to the end of the next enabled one. */
  function EdgesToAct(count: nat): int {
    if count == 0 then 1 else 12 - count
  }

  /** The exact number of edges before the engine is ready again. */
  function EdgesLeft(r: Regs, g: Stage): int {
    if g.Ready? then 0 else EdgesToAct(r.count) + PERIOD * (ActsLeft(g) - 1)
  }

  predicate Sent(x: Receiver, word: seq<bool>, k: nat) {
    |x.current| == k <= |word| && forall i | 0 <= i < k :: x.current[i] == word[i]
  }

  predicate Holds(treg: seq<bool>, word: seq<bool>, k: nat) {
    |treg| == |word| && forall i | 0 <= i < |word| - k :: treg[i] == word[k + i]
  }

  const IDLE_PINS := Pins(true, false, false)

  /** The registers and the receiver at each stage of sending word after words. */
  predicate InStage(r: Regs, x: Receiver, word: seq<bool>, words: seq<seq<bool>>, g: Stage) {
    && Valid(r) && |word| == BITS
    && match g
       case Latched => r.state == IDLE && r.latched && !r.clear && r.data == word && r.pins == IDLE_PINS && x == Receiver(words, [])
       case Low(k) => k < BITS && r.state == CLKP1 && r.latched && !r.clear && r.data == word && r.bcnt == 63 - k && !r.pins.cs
                      && (r.pins.sclk <==> k > 0) && Holds(r.treg, word, k) && Sent(x, word, k) && x.words == words
       case High(k) => k < BITS && r.state == CLKP2 && r.latched && !r.clear && r.data == word && r.bcnt == 63 - k && !r.pins.cs
                       && !r.pins.sclk && r.pins.dout == word[k] && Holds(r.treg, word, k + 1) && Sent(x, word, k) && x.words == words
       case Sync => r.state == SETSYNC && r.clear && !r.latched && !r.pins.cs && r.pins.sclk && Sent(x, word, BITS) && x.words == words
       case Clearing => r.state == IDLE && r.clear && !r.latched && r.pins.cs && !r.pins.sclk && x == Receiver(Plus(words, word), [])
       case Ready => r.state == IDLE && !r.clear && !r.latched && r.pins == IDLE_PINS && x == Receiver(Plus(words, word), [])
  }
  function NextStage(g: Stage): Stage {
    match g
    case Latched => Low(0)
    case Low(k) => High(k)
    case High(k) => if k == BITS - 1 then Sync else Low(k + 1)
    case Sync => Clearing
    case Clearing => Ready
    case Ready => Ready
  }

  /** Between enabled edges nothing moves. */
  lemma WaitStep(r: Regs, x: Receiver, word: seq<bool>, words: seq<seq<bool>>, g: Stage, i: Input)
    requires InStage(r, x, word, words, g) && !g.Ready? && !r.enable && i.word == word
    ensures var r' := Step(r, i);
            InStage(r', Sample(x, r.pins, r'.pins), word, words, g)
  {}

  lemma LowStep(r: Regs, x: Receiver, word: seq<bool>, words: seq<seq<bool>>, k: nat, i: Input)
    requires InStage(r, x, word, words, Low(k)) && r.enable && i.word == word
    ensures var r' := Step(r, i);
            InStage(r', Sample(x, r.pins, r'.pins), word, words, High(k))
  {}

  lemma HighStep(r: Regs, x: Receiver, word: seq<bool>, words: seq<seq<bool>>, k: nat, i: Input)
    requires InStage(r, x, word, words, High(k)) && r.enable && i.word == word
    ensures var r' := Step(r, i);
            InStage(r', Sample(x, r.pins, r'.pins), word, words, NextStage(High(k)))
  {}

  lemma EndStep(r: Regs, x: Receiver, word: seq<bool>, words: seq<seq<bool>>, g: Stage, i: Input)
    requires InStage(r, x, word, words, g) && (g.Latched? || g.Sync? || g.Clearing?) && r.enable && i.word == word
    ensures var r' := Step(r, i);
            InStage(r', Sample(x, r.pins, r'.pins), word, words, NextStage(g))
  {
    if g.Sync? {
      assert x.current == word;
    }
  }

  /** One clock of a transfer, whether the write is still up or not: the stage goes on
      at the enabled edges, and the count of edges left goes down by one. */
  lemma StageStep(r: Regs, x: Receiver, word: seq<bool>, words: seq<seq<bool>>, g: Stage, i: Input)
    requires InStage(r, x, word, words, g) && !g.Ready? && i.word == word
    ensures var r', g' := Step(r, i), if r.enable then NextStage(g) else g;
      && InStage(r', Sample(x, r.pins, r'.pins), word, words, g')
      && EdgesLeft(r', g') == EdgesLeft(r, g) - 1
  {
    if r.enable {
      if g.Low? {
        LowStep(r, x, word, words, g.k, i);
      } else if g.High? {
        HighStep(r, x, word, words, g.k, i);
      } else {
        EndStep(r, x, word, words, g, i);
      }
    } else {
      WaitStep(r, x, word, words, g, i);
    }
  }

  // --- Whole transfers --------------------------------------------------------------

  datatype Link = Link(r: Regs, x: Receiver)

  function Tick(s: Link, i: Input): (s': Link)
    requires Valid(s.r)
    ensures Valid(s'.r)
  {
    var r' := Step(s.r, i);
    Link(r', Sample(s.x, s.r.pins, r'.pins))
  }

  /** n edges. */
  ghost function Ticks(s: Link, input: nat -> Input, n: nat): (s': Link)
    requires Valid(s.r)
    ensures Valid(s'.r)
  {
    if n == 0 then s else Tick(Ticks(s, input, n - 1), input(n - 1))
  }

  /** The bus registers hold the word all the time. */
  ghost predicate Keeps(input: nat -> Input, word: Word64) {
    forall n: nat :: input(n).word == word
  }

  /** No transfer and nothing latched: the next write begins one. */
  predicate Idle(s: Link) {
    && Valid(s.r) && s.r.state == IDLE && !s.r.clear && !s.r.latched && s.r.pins == IDLE_PINS
    && s.x.current == []
  }

  lemma FirstEdgeIsIdle(s: Link, i: Input)
    requires PowerUp(s.r) && !i.we
    ensures Idle(Link(Step(s.r, i), Receiver([], [])))
  {}

  lemma IdleStep(s: Link, i: Input)
    requires Idle(s) && !i.we
    ensures Idle(Tick(s, i)) && Tick(s, i).x == s.x
  {}

  lemma WriteStep(s: Link, i: Input)
    requires Idle(s) && i.we
    ensures var s' := Tick(s, i);
      && InStage(s'.r, s'.x, i.word, s.x.words, Latched)
      && EdgesLeft(s'.r, Latched) == if s.r.count == 10 then 1431 else 1441 - s.r.count
  {}

  ghost predicate Sending(s: Link, word: seq<bool>, words: seq<seq<bool>>, left: int) {
    exists g :: InStage(s.r, s.x, word, words, g) && EdgesLeft(s.r, g) == left
  }

  lemma {:induction false} Transfers(s: Link, s1: Link, word: Word64, input: nat -> Input, at: nat, n: nat)
    requires Valid(s.r) && s1 == Ticks(s, input, at) && Idle(s1)
    requires Keeps(input, word) && input(at).we && n < Occupied(s1.r.count)
    ensures Sending(Ticks(s, input, at + n + 1), word, s1.x.words, Occupied(s1.r.count) - (n + 1))
  {
    if n == 0 {
      WriteStep(s1, input(at));
    } else {
      Transfers(s, s1, word, input, at, n - 1);
      SendingStep(Ticks(s, input, at + n), word, s1.x.words, Occupied(s1.r.count) - n, input(at + n));
    }
  }

  lemma SendingStep(s: Link, word: seq<bool>, words: seq<seq<bool>>, left: int, i: Input)
    requires Sending(s, word, words, left) && left > 0 && i.word == word
    ensures Valid(s.r) && Sending(Tick(s, i), word, words, left - 1)
  {
    var g :| InStage(s.r, s.x, word, words, g) && EdgesLeft(s.r, g) == left;
    StageStep(s.r, s.x, word, words, g, i);
  }

  lemma SendingDone(s: Link, word: seq<bool>, words: seq<seq<bool>>)
    requires Sending(s, word, words, 0)
    ensures Idle(s) && s.x.words == Plus(words, word)
  {
    var g :| InStage(s.r, s.x, word, words, g) && EdgesLeft(s.r, g) == 0;
    assert g.Ready?;
  }

  /** The edges a write occupies the engine, given the divider's count when it comes. */
  function Occupied(count: nat): (n: nat)
    requires count <= 10
    ensures 1 <= n <= 1442
  {
    1 + if count == 10 then 1431 else 1441 - count
  }

  /** A write that finds the engine idle at clock at, held for any time up to the transfer's
      own length and let go at any point of it, delivers its word exactly once: the receiver
      has the 64 bits, and the engine is idle again after an exact number of clocks. */
  lemma WriteDelivers(s: Link, s1: Link, word: Word64, input: nat -> Input, at: nat)
    requires Valid(s.r) && s1 == Ticks(s, input, at) && Idle(s1) && Keeps(input, word) && input(at).we
    ensures Occupied(s1.r.count) <= 1442 < 1500
    ensures var s' := Ticks(s, input, at + Occupied(s1.r.count));
            Idle(s') && s'.x.words == Plus(s1.x.words, word)
  {
    var n := Occupied(s1.r.count);
    Transfers(s, s1, word, input, at, n - 1);
    SendingDone(Ticks(s, input, at + n), word, s1.x.words);
  }

  /** A write that is let go once. */
  ghost predicate OnePulse(input: nat -> Input) {
    forall i: nat, j: nat | i <= j && !input(i).we :: !input(j).we
  }

  lemma {:induction false} StaysIdle(s: Link, s1: Link, input: nat -> Input, at: nat, n: nat)
    requires Valid(s.r) && s1 == Ticks(s, input, at) && Idle(s1) && forall i: nat | at <= i < at + n :: !input(i).we
    ensures Idle(Ticks(s, input, at + n)) && Ticks(s, input, at + n).x == s1.x
  {
    if n > 0 {
      StaysIdle(s, s1, input, at, n - 1);
      IdleStep(Ticks(s, input, at + n - 1), input(at + n - 1));
    }
  }

  /** What an idle engine makes of a write that is up at clock at, or not any more. */
  lemma UpOrNot(s: Link, s1: Link, word: Word64, input: nat -> Input, at: nat)
    requires Valid(s.r) && s1 == Ticks(s, input, at) && Idle(s1) && Keeps(input, word) && OnePulse(input)
    ensures var s' := Ticks(s, input, at + Occupied(s1.r.count));
            Idle(s') && s'.x.words == if input(at).we then Plus(s1.x.words, word) else s1.x.words
  {
    if input(at).we {
      WriteDelivers(s, s1, word, input, at);
    } else {
      StaysIdle(s, s1, input, at, Occupied(s1.r.count));
    }
  }

  /** The receiver gets the word a second time if and only if the write is still up at
      the end, after clock n, of its own transfer; m is the length of the second. */
  lemma RepeatsIffStillUp(s: Link, word: Word64, input: nat -> Input) returns (n: nat, m: nat)
    requires Idle(s) && Keeps(input, word) && input(0).we && OnePulse(input)
    ensures n == Occupied(s.r.count) && m == Occupied(Ticks(s, input, n).r.count)
    ensures Ticks(s, input, n + m).x.words
         == if input(n).we then Plus(Plus(s.x.words, word), word) else Plus(s.x.words, word)
  {
    n := Occupied(s.r.count);
    UpOrNot(s, s, word, input, 0);
    var s1 := Ticks(s, input, n);
    m := Occupied(s1.r.count);
    UpOrNot(s, s1, word, input, n);
  }

  // --- What comes back ----------------------------------------------------------------

  /** The levels of the input pin at the rises of sclk, as an observer notes them. */
  function Noted(heard: seq<bool>, was: Pins, now: Pins, din: bool): seq<bool> {
    if !was.sclk && now.sclk then heard + [din] else heard
  }

  /** The receive register is the last 32 of them. */
  predicate LastHeard(rreg: seq<bool>, heard: seq<bool>) {
    |rreg| == 32 <= |heard| && forall k | 0 <= k < 32 :: rreg[k] == heard[|heard| - 32 + k]
  }

  /** It stays so at every edge of a transfer, and the done flag is up exactly from the end
      of the last bit to the next idle edge. */
  lemma StageReceives(r: Regs, x: Receiver, word: seq<bool>, words: seq<seq<bool>>, g: Stage, i: Input, heard: seq<bool>)
    requires InStage(r, x, word, words, g) && i.word == word && LastHeard(r.rreg, heard)
    ensures var r' := Step(r, i); LastHeard(r'.rreg, Noted(heard, r.pins, r'.pins, i.din))
    ensures var r' := Step(r, i);
      r'.done == if r.enable && g == High(BITS - 1) then true
                 else if r.enable && (g.Latched? || g.Clearing? || g.Ready?) then false
                 else r.done
  {}

  // --- What the receiver has -----------------------------------------------------------

  /** A word read as a number: the write bit, then the address, then the data. */
  lemma WordValue(addr: Word32, data: Word32)
    requires addr < 0x8000_0000
    ensures Value(WordOf(addr, data)) == addr * 0x1_0000_0000 + data
    ensures !WordOf(addr, data)[0]
  {
    Powers();
    var high := [false] + Digits(addr, 31);
    ValueAppend(high, Digits(data, 32));
    ValueAppend([false], Digits(addr, 31));
    assert Value([false]) == 0;
    DigitsValue(addr, 31);
    DigitsValue(data, 32);
  }
}
