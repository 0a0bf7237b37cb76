/** ivt_i2c_cntrl.vhd: a sequencer on the fast clock hands transactions, one at a
    time, to a bit engine on the slow clock, and stores what the chips answer. */
module I2cMonitor {
  import opened Octets
  import opened Binary

  const WIDTH := 36

  // --- The transaction table ----------------------------------------------------

  /** A byte and the level the master puts on the bus for its acknowledge bit. */
  datatype Part = Part(byte: Octet, ack: bool)

  function Two(addr: Octet, a: Octet): seq<Part> {
    [Part(addr, true), Part(a, true)]
  }

  function Three(addr: Octet, a: Octet, b: Octet): seq<Part> {
    [Part(addr, true), Part(a, true), Part(b, true)]
  }

  function Four(addr: Octet, a: Octet, b: Octet, c: Octet): seq<Part> {
    [Part(addr, true), Part(a, true), Part(b, true), Part(c, true)]
  }

  /** Two bytes are read: the bus is let go for them, and the master acknowledges the
      first only. */
  function ReadWord(addr: Octet): seq<Part> {
    [Part(addr, true), Part(0xFF, false), Part(0xFF, true)]
  }

  /** i2c_data: the transaction of each step. */
  function Parts(step: nat): seq<Part>
    requires step <= 60
  {
    if step == 0 then []
    else if step <= 4 then Three(0x90 + 2 * (step - 1), 0x03, 0x80)
    else if step <= 8 then Three(0x90 + 2 * (step - 5), 0x00, 0x00)
    else if step <= 16 then Four(0x80 + 2 * (step - 9), 0x00, 0x41, 0x27)
    else if step <= 24 then Four(0x80 + 2 * (step - 17), 0x05, 0x08, 0x00)
    else if step <= 28 then ReadWord(0x91 + 2 * (step - 25))
    else if step <= 36 then Two(0x80 + 2 * (step - 29), 0x02)
    else if step <= 44 then ReadWord(0x81 + 2 * (step - 37))
    else if step <= 52 then Two(0x80 + 2 * (step - 45), 0x04)
    else ReadWord(0x81 + 2 * (step - 53))
  }

  /** i2c_size: how many bits of it are sent. */
  function Size(step: nat): (n: nat)
    requires step <= 60
    ensures n <= WIDTH
  {
    if step == 0 then 0
    else if step <= 8 then 27
    else if step <= 24 then 36
    else if step <= 28 then 27
    else if step <= 36 then 18
    else if step <= 44 then 27
    else if step <= 52 then 18
    else 27
  }

  function Encode(parts: seq<Part>): (bits: seq<bool>)
    ensures |bits| == 9 * |parts|
  {
    if parts == [] then []
    else Digits(parts[0].byte, 8) + [parts[0].ack] + Encode(parts[1..])
  }

  /** The bits that should be driven for a step, in order. */
  function Driven(step: nat): seq<bool>
    requires step <= 60
  {
    Encode(Parts(step))
  }

  lemma SizesAgree(step: nat)
    requires step <= 60
    ensures |Driven(step)| == Size(step)
  {}

  /** A table entry: 36 bits, most significant first, the transaction right-aligned. */
  function Entry(step: nat): (e: seq<bool>)
    requires step <= 60
    ensures |e| == WIDTH
    ensures |Driven(step)| == Size(step)
    ensures forall i | 0 <= i < Size(step) :: e[WIDTH - Size(step) + i] == Driven(step)[i]
  {
    SizesAgree(step);
    seq(WIDTH, i requires 0 <= i < WIDTH =>
      i >= WIDTH - Size(step) && Driven(step)[i - (WIDTH - Size(step))])
  }

  /** The steps after which a register is updated: four temperatures, eight voltages,
      eight currents. */
  predicate IsReading(step: nat) {
    25 <= step <= 28 || 37 <= step <= 44 || 53 <= step <= 60
  }

  /** Two bytes and the acknowledge bit between them, which is dropped. */
  function TwoBytes(v: seq<bool>, at: nat): (w: seq<bool>)
    requires at + 17 <= |v|
    ensures |w| == 16
  {
    seq(16, i requires 0 <= i < 16 => if i < 8 then v[at + i] else v[at + 1 + i])
  }

  // --- The two clocked processes -------------------------------------------------

  datatype Phase = STARTUP | CONFIG | READ | WAITING
  datatype BitState = IDLE | START | CLK_P1 | CLK_P2 | CLK_P3 | CLK_P4 | STOP_P1 | STOP_P2 | STOP_P3 | STOP_P4

  /** data_con's registers; the output registers go by the step that fills them. */
  datatype Sequencer = Sequencer(phase: Phase, trig: bool, step: nat, treg: seq<bool>, bcnt: nat,
                                 outputs: map<nat, seq<bool>>)

  /** i2c_con's registers. */
  datatype Engine = Engine(state: BitState, ready: bool, rreg: seq<bool>, left: nat, scl: bool, sda: bool)

  predicate Wide(d: Sequencer, w: Engine) {
    |d.treg| == WIDTH && |w.rreg| == WIDTH && d.bcnt <= WIDTH && w.left <= WIDTH && d.step <= 60
  }

  function Issue(d: Sequencer, step: nat, count: nat): Sequencer
    requires step <= 60
  {
    d.(treg := Entry(step), bcnt := Size(step), step := count, trig := true)
  }

  /** The answer to the last transaction goes to its register, if it has one. */
  function Stored(d: Sequencer, w: Engine): Sequencer
    requires Wide(d, w)
  {
    if IsReading(d.step) then d.(outputs := d.outputs[d.step := TwoBytes(w.rreg, 18)]) else d
  }

  /** A rising edge of clock with reset: the output registers keep what they hold. */
  function FastReset(d: Sequencer): Sequencer {
    d.(bcnt := 0, treg := Zeros(WIDTH), phase := STARTUP, trig := false, step := 0)
  }

  /** A rising edge of i2c_clk with reset. */
  function SlowReset(w: Engine): Engine {
    w.(ready := false, rreg := Zeros(WIDTH), scl := true, sda := true, state := IDLE)
  }

  /** A rising edge of clock, without reset. */
  function Fast(d: Sequencer, w: Engine, strobe: bool): Sequencer
    requires Wide(d, w)
  {
    if !w.ready then d.(trig := false)
    else match d.phase
      case STARTUP => d.(phase := CONFIG)
      case CONFIG =>
        if d.trig then d
        else if d.step < 24 then Issue(d, d.step, d.step + 1)
        else d.(phase := READ)
      case READ =>
        if d.trig then d
        else if d.step != 60 then Issue(Stored(d, w), d.step + 1, d.step + 1)
        else Stored(d, w).(phase := WAITING)
      case WAITING => if strobe then d.(phase := READ, step := 24) else d
  }

  /** A rising edge of i2c_clk, without reset; released says that no chip pulls sda low. */
  function Slow(d: Sequencer, w: Engine, released: bool): Engine
    requires Wide(d, w)
  {
    match w.state
    case IDLE =>
      if d.trig then w.(rreg := Zeros(WIDTH), ready := false, left := d.bcnt, state := START)
      else w.(scl := true, sda := true, ready := true)
    case START => w.(sda := false, state := CLK_P1)
    case CLK_P1 =>
      if w.left == 0 then w.(scl := false, sda := false, state := STOP_P1) else w.(scl := false, state := CLK_P2)
    case CLK_P2 => w.(sda := w.left > 0 && d.treg[WIDTH - w.left], state := CLK_P3)
    case CLK_P3 => w.(scl := true, state := CLK_P4)
    case CLK_P4 =>
      if w.left > 0 then
        w.(rreg := w.rreg[WIDTH - w.left := w.sda && released], left := w.left - 1, state := CLK_P1)
      else w.(state := CLK_P1)
    case STOP_P1 => w.(state := STOP_P2)
    case STOP_P2 => w.(scl := true, state := STOP_P3)
    case STOP_P3 => w.(sda := true, state := IDLE)
    case STOP_P4 => w.(state := IDLE, scl := true, sda := true)
  }

  class Monitor {
    var data_state: Phase
    var i2c_trig: bool
    var step_count: nat
    var treg: seq<bool>
    var bcnt: nat
    var registers: map<nat, seq<bool>>
    var i2c_state: BitState
    var i2c_ready: bool
    var rreg: seq<bool>
    var bit_count: nat
    var int_scl: bool
    var int_sda: bool

    function Data(): Sequencer
      reads this
    {
      Sequencer(data_state, i2c_trig, step_count, treg, bcnt, registers)
    }

    function Bits(): Engine
      reads this
    {
      Engine(i2c_state, i2c_ready, rreg, bit_count, int_scl, int_sda)
    }

    /** The state after reset of both processes. */
    constructor ()
      ensures AtReset(Data(), Bits())
    {
      data_state, i2c_trig, step_count, treg, bcnt := STARTUP, false, 0, Zeros(WIDTH), 0;
      registers := map[];
      i2c_state, i2c_ready, rreg, bit_count, int_scl, int_sda := IDLE, false, Zeros(WIDTH), 0, true, true;
    }

    /** The transmit word of a step is loaded and the transaction asked for. */
    method Request(step: nat, count: nat)
      requires step <= 60
      modifies this`i2c_trig, this`step_count, this`treg, this`bcnt
      ensures Data() == Issue(old(Data()), step, count)
    {
      treg, bcnt, step_count, i2c_trig := Entry(step), Size(step), count, true;
    }

    method StoreAnswer()
      requires Wide(Data(), Bits())
      modifies this`registers
      ensures Data() == Stored(old(Data()), Bits())
    {
      if IsReading(step_count) {
        registers := registers[step_count := TwoBytes(rreg, 18)];
      }
    }

    /** A rising edge of clock. */
    method Clock(reset: bool, strobe: bool)
      requires Wide(Data(), Bits())
      modifies this`data_state, this`i2c_trig, this`step_count, this`treg, this`bcnt, this`registers
      ensures Data() == if reset then FastReset(old(Data())) else Fast(old(Data()), Bits(), strobe)
    {
      if reset {
        bcnt, treg, data_state, i2c_trig, step_count := 0, Zeros(WIDTH), STARTUP, false, 0;
      } else {
        Sequence(strobe);
      }
    }

    /** data_con without reset. */
    method Sequence(strobe: bool)
      requires Wide(Data(), Bits())
      modifies this`data_state, this`i2c_trig, this`step_count, this`treg, this`bcnt, this`registers
      ensures Data() == Fast(old(Data()), Bits(), strobe)
    {
      if !i2c_ready {
        i2c_trig := false;
        return;
      }
      match data_state
      case STARTUP => data_state := CONFIG;
      case CONFIG =>
        if !i2c_trig {
          if step_count < 24 {
            Request(step_count, step_count + 1);
          } else {
            data_state := READ;
          }
        }
      case READ =>
        if !i2c_trig {
          StoreAnswer();
          if step_count != 60 {
            Request(step_count + 1, step_count + 1);
          } else {
            data_state := WAITING;
          }
        }
      case WAITING =>
        if strobe {
          data_state, step_count := READ, 24;
        }
    }

    /** A rising edge of i2c_clk. */
    method BusClock(reset: bool, released: bool)
      requires Wide(Data(), Bits())
      modifies this`i2c_state, this`i2c_ready, this`rreg, this`bit_count, this`int_scl, this`int_sda
      ensures Bits() == if reset then SlowReset(old(Bits())) else Slow(Data(), old(Bits()), released)
    {
      if reset {
        i2c_ready, rreg, int_scl, int_sda, i2c_state := false, Zeros(WIDTH), true, true, IDLE;
      } else {
        Drive(released);
      }
    }

    /** i2c_con without reset. */
    method Drive(released: bool)
      requires Wide(Data(), Bits())
      modifies this`i2c_state, this`i2c_ready, this`rreg, this`bit_count, this`int_scl, this`int_sda
      ensures Bits() == Slow(Data(), old(Bits()), released)
    {
      match i2c_state
      case IDLE =>
        if i2c_trig {
          rreg, i2c_ready, bit_count, i2c_state := Zeros(WIDTH), false, bcnt, START;
        } else {
          int_scl, int_sda, i2c_ready := true, true, true;
        }
      case START => int_sda, i2c_state := false, CLK_P1;
      case CLK_P1 =>
        int_scl := false;
        if bit_count == 0 {
          int_sda, i2c_state := false, STOP_P1;
        } else {
          i2c_state := CLK_P2;
        }
      case CLK_P2 => int_sda, i2c_state := bit_count > 0 && treg[WIDTH - bit_count], CLK_P3;
      case CLK_P3 => int_scl, i2c_state := true, CLK_P4;
      case CLK_P4 =>
        if bit_count > 0 {
          rreg, bit_count := rreg[WIDTH - bit_count := int_sda && released], bit_count - 1;
        }
        i2c_state := CLK_P1;
      case STOP_P1 => i2c_state := STOP_P2;
      case STOP_P2 => int_scl, i2c_state := true, STOP_P3;
      case STOP_P3 => int_sda, i2c_state := true, IDLE;
      case STOP_P4 => i2c_state, int_scl, int_sda := IDLE, true, true;
    }
  }

  predicate AtReset(d: Sequencer, w: Engine) {
    && Wide(d, w) && d.phase == STARTUP && !d.trig && d.step == 0
    && w.state == IDLE && !w.ready && w.scl && w.sda
  }

  /** An edge of each clock with reset, in either order, leads there from any state. */
  lemma ResetIsStart(d: Sequencer, w: Engine)
    requires w.left <= WIDTH
    ensures AtReset(FastReset(d), SlowReset(w))
  {}
}
