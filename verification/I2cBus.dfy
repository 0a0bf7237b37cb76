/** What happens on the I2C wires over whole runs, as an independent decoder sees it,
    and what the output registers then hold. */
module I2cBus {
  import opened I2cMonitor

  // --- The decoder ------------------------------------------------------------------

  /** One clocked bit: the level the master drives and the level seen on the wire. */
  datatype Bit = Bit(driven: bool, seen: bool)

  /** It knows only scl and sda. sda falling with scl high starts a transaction and sda
      rising with scl high ends it; a level first seen with scl high becomes a bit when
      scl falls. bad: a start within a transaction, or a stop outside. */
  datatype Bus = Bus(active: bool, bits: seq<Bit>, pending: Pending, log: seq<seq<Bit>>, bad: bool)
  datatype Pending = Nothing | Level(bit: Bit)

  function Watch(b: Bus, before: Engine, after: Engine, released: bool): Bus {
    if !before.scl then b.(pending := Nothing)
    else if !after.scl then
      b.(bits := if b.pending.Level? then b.bits + [b.pending.bit] else b.bits, pending := Nothing)
    else if before.sda && !after.sda then Bus(true, [], Nothing, b.log, b.bad || b.active)
    else if !before.sda && after.sda then Bus(false, [], Nothing, b.log + [b.bits], b.bad || !b.active)
    else if b.pending.Level? then b
    else b.(pending := Level(Bit(before.sda, before.sda && released)))
  }

  // --- Runs ------------------------------------------------------------------------

  /** A request: the transmit word and the number of its bits to send. */
  datatype Request = Request(treg: seq<bool>, size: nat)

  /** asked: the requests so far, one for each rise of i2c_trig. ticked: the fast clock
      has had an edge since the slow clock's last one. base: what the output registers
      held at reset. */
  datatype Chip = Chip(d: Sequencer, w: Engine, asked: seq<Request>, ticked: bool, bus: Bus,
                       base: map<nat, seq<bool>>)

  datatype Event = FastEdge(strobe: bool) | SlowEdge(released: bool)

  predicate Enabled(c: Chip, e: Event) {
    Wide(c.d, c.w) && (e.SlowEdge? ==> c.ticked)
  }

  function Next(c: Chip, e: Event): Chip
    requires Enabled(c, e)
  {
    match e
    case FastEdge(strobe) =>
      var d' := Fast(c.d, c.w, strobe);
      c.(d := d', ticked := true,
         asked := if !c.d.trig && d'.trig then c.asked + [Request(d'.treg, d'.bcnt)] else c.asked)
    case SlowEdge(released) =>
      var w' := Slow(c.d, c.w, released);
      c.(w := w', ticked := false, bus := Watch(c.bus, c.w, w', released))
  }

  ghost predicate Start(c: Chip) {
    && AtReset(c.d, c.w) && c.d.outputs == c.base
    && c.asked == [] && !c.bus.active && c.bus.log == [] && !c.bus.bad
  }

  // --- The handshake: requests and transactions ----------------------------------------

  /** The first k bits of a transaction: the bits of the transmit word were driven, and
      what was seen is in the receive register. */
  ghost predicate Carries(bits: seq<Bit>, treg: seq<bool>, rreg: seq<bool>, size: nat, k: nat) {
    && |bits| == k <= size <= WIDTH && |treg| == |rreg| == WIDTH
    && forall j | 0 <= j < k :: IsBit(bits[j], treg, rreg, size, j)
  }

  ghost predicate IsBit(bit: Bit, treg: seq<bool>, rreg: seq<bool>, size: nat, j: nat)
    requires j < size <= WIDTH && |treg| == |rreg| == WIDTH
  {
    bit == Bit(treg[WIDTH - size + j], rreg[WIDTH - size + j])
  }

  /** The receive register holds what was seen. */
  ghost predicate Received(bits: seq<Bit>, rreg: seq<bool>, size: nat) {
    |bits| == size <= WIDTH == |rreg| && forall j | 0 <= j < size :: bits[j].seen == rreg[WIDTH - size + j]
  }

  /** A transaction that drove all the bits of its request. */
  ghost predicate Complete(bits: seq<Bit>, q: Request) {
    && |bits| == q.size <= WIDTH == |q.treg|
    && forall j | 0 <= j < q.size :: bits[j].driven == q.treg[WIDTH - q.size + j]
  }

  ghost predicate Logged(log: seq<seq<Bit>>, asked: seq<Request>) {
    |log| <= |asked| && forall i | 0 <= i < |log| :: Complete(log[i], asked[i])
  }

  ghost predicate Clocked(c: Chip, k: nat)
    requires Wide(c.d, c.w)
  {
    c.bus.active && Carries(c.bus.bits, c.d.treg, c.w.rreg, c.d.bcnt, k)
  }

  /** The bit engine and the decoder, state by state, while a transaction is on the bus;
      k bits have been clocked. */
  ghost predicate Running(c: Chip)
    requires Wide(c.d, c.w)
  {
    var b, w := c.bus, c.w;
    && w.left <= c.d.bcnt && !w.ready && (c.d.trig ==> w.state == START && !c.ticked)
    && var k := c.d.bcnt - w.left;
       match w.state
       case START => w.scl && w.sda && !b.active && k == 0
       case CLK_P1 => w.scl && b.active
         && (if k == 0 then b.pending.Nothing? && b.bits == [] && !w.sda
             else b.pending.Level? && Clocked(c, k - 1) && IsBit(b.pending.bit, c.d.treg, w.rreg, c.d.bcnt, k - 1))
       case CLK_P2 => !w.scl && w.left > 0 && Clocked(c, k)
       case CLK_P3 => !w.scl && w.left > 0 && Clocked(c, k) && w.sda == c.d.treg[WIDTH - w.left]
       case CLK_P4 => w.scl && w.left > 0 && Clocked(c, k) && w.sda == c.d.treg[WIDTH - w.left] && b.pending.Nothing?
       case STOP_P1 => !w.scl && !w.sda && w.left == 0 && Clocked(c, k)
       case STOP_P2 => !w.scl && !w.sda && w.left == 0 && Clocked(c, k)
       case STOP_P3 => w.scl && !w.sda && w.left == 0 && Clocked(c, k)
       case _ => false
  }

  ghost predicate WiresUp(c: Chip) {
    c.w.state == IDLE && c.w.scl && c.w.sda && !c.bus.active
  }

  ghost predicate Resting(c: Chip) {
    && WiresUp(c) && !c.d.trig && |c.asked| == |c.bus.log|
    && (c.asked != [] ==> Received(c.bus.log[|c.asked| - 1], c.w.rreg, c.asked[|c.asked| - 1].size))
  }

  /** The last request is still to be served, and its transmit word is in place. */
  ghost predicate Waiting(c: Chip) {
    |c.asked| == |c.bus.log| + 1 && c.asked[|c.asked| - 1] == Request(c.d.treg, c.d.bcnt)
  }

  /** At rest, asked for, or on the bus. */
  ghost predicate Handshake(c: Chip)
    requires Wide(c.d, c.w)
  {
    Resting(c) || (Waiting(c) && ((WiresUp(c) && c.d.trig && c.w.ready) || Running(c)))
  }

  ghost predicate BusInv(c: Chip) {
    Wide(c.d, c.w) && Logged(c.bus.log, c.asked) && !c.bus.bad && Handshake(c)
  }

  /** A bit is read while scl is high. */
  lemma ReadKeeps(c: Chip, c': Chip, released: bool)
    requires Wide(c.d, c.w) && Running(c) && c.w.state == CLK_P4 && !c.d.trig && c'.d == c.d
    requires c'.w == Slow(c.d, c.w, released) && c'.bus == c.bus.(pending := Level(Bit(c.w.sda, c.w.sda && released)))
    ensures Wide(c'.d, c'.w) && Running(c')
  {
    var size, k := c.d.bcnt, c.d.bcnt - c.w.left;
    forall j | 0 <= j < k ensures IsBit(c.bus.bits[j], c.d.treg, c'.w.rreg, size, j) {
      assert IsBit(c.bus.bits[j], c.d.treg, c.w.rreg, size, j);
    }
  }

  /** scl falls: the bit that was read counts. */
  lemma FallKeeps(c: Chip, c': Chip, bits: seq<Bit>)
    requires Wide(c.d, c.w) && Running(c) && c.w.state == CLK_P1 && !c.d.trig && c'.d == c.d
    requires c'.w == Slow(c.d, c.w, false) && c'.bus == c.bus.(bits := bits, pending := Nothing)
    requires if c.bus.pending.Nothing? then bits == c.bus.bits
             else |bits| == |c.bus.bits| + 1 && bits[|c.bus.bits|] == c.bus.pending.bit
                  && forall j | 0 <= j < |c.bus.bits| :: bits[j] == c.bus.bits[j]
    ensures Wide(c'.d, c'.w) && Running(c')
  {
    var size, k := c.d.bcnt, c.d.bcnt - c.w.left;
    forall j | 0 <= j < k ensures IsBit(bits[j], c.d.treg, c.w.rreg, size, j) {
      assert j < k - 1 ==> IsBit(c.bus.bits[j], c.d.treg, c.w.rreg, size, j);
    }
  }

  lemma RunningKeeps(c: Chip, c': Chip, released: bool)
    requires Wide(c.d, c.w) && Running(c) && c.ticked && !c.bus.bad
    requires c.w.state != STOP_P3 && c' == Next(c, SlowEdge(released))
    ensures Wide(c'.d, c'.w) && Running(c') && !c'.bus.bad && c'.bus.log == c.bus.log
  {
    if c.w.state == CLK_P4 {
      ReadKeeps(c, c', released);
    } else if c.w.state == CLK_P1 {
      FallKeeps(c, c', c'.bus.bits);
    }
  }

  lemma CarriedIsComplete(bits: seq<Bit>, treg: seq<bool>, rreg: seq<bool>, size: nat)
    requires Carries(bits, treg, rreg, size, size)
    ensures Complete(bits, Request(treg, size)) && Received(bits, rreg, size)
  {
    forall j | 0 <= j < size ensures bits[j] == Bit(treg[WIDTH - size + j], rreg[WIDTH - size + j]) {
      assert IsBit(bits[j], treg, rreg, size, j);
    }
  }

  ghost predicate Extends<T>(s: seq<T>, s': seq<T>, x: T) {
    |s'| == |s| + 1 && s'[|s|] == x && forall i | 0 <= i < |s| :: s'[i] == s[i]
  }

  /** A stop condition ends the transaction and puts it on the log. */
  lemma StopKeeps(c: Chip, c': Chip)
    requires BusInv(c) && c.w.state == STOP_P3 && !c.d.trig && c'.d == c.d && c'.asked == c.asked
    requires c'.w == c.w.(sda := true, state := IDLE)
    requires Extends(c.bus.log, c'.bus.log, c.bus.bits) && !c'.bus.active && !c'.bus.bad
    ensures BusInv(c')
  {
    CarriedIsComplete(c.bus.bits, c.d.treg, c.w.rreg, c.d.bcnt);
  }

  lemma SlowKeepsBus(c: Chip, released: bool)
    requires BusInv(c) && c.ticked
    ensures BusInv(Next(c, SlowEdge(released)))
    ensures var log, log' := c.bus.log, Next(c, SlowEdge(released)).bus.log;
            log' == log || Extends(log, log', c.bus.bits)
  {
    var c' := Next(c, SlowEdge(released));
    if c.w.state == STOP_P3 {
      StopKeeps(c, c');
    } else if c.w.state != IDLE {
      RunningKeeps(c, c', released);
    }
  }

  /** A request is made only at rest. */
  lemma RequestKeeps(c: Chip, c': Chip)
    requires BusInv(c) && Resting(c) && c.w.ready && c'.d.trig && Wide(c'.d, c'.w)
    requires Extends(c.asked, c'.asked, Request(c'.d.treg, c'.d.bcnt)) && c'.w == c.w && c'.bus == c.bus
    ensures BusInv(c')
  {}

  /** Otherwise the fast clock lets go of i2c_trig or leaves the handshake alone. */
  lemma NoRequestKeeps(c: Chip, c': Chip)
    requires BusInv(c) && Wide(c'.d, c'.w) && c'.w == c.w && c'.bus == c.bus && c'.asked == c.asked
    requires c'.d.treg == c.d.treg && c'.d.bcnt == c.d.bcnt
    requires if c.w.ready then c'.d.trig == c.d.trig else !c'.d.trig
    ensures BusInv(c')
  {}

  lemma FastIs(d: Sequencer, w: Engine, strobe: bool)
    requires Wide(d, w)
    ensures var d' := Fast(d, w, strobe);
      && Wide(d', w)
      && (d.trig ==> !d'.trig || d'.trig == d.trig)
      && (if !d.trig && d'.trig then w.ready
          else d'.treg == d.treg && d'.bcnt == d.bcnt && if w.ready then d'.trig == d.trig else !d'.trig)
  {}

  lemma FastKeepsBus(c: Chip, strobe: bool)
    requires BusInv(c)
    ensures BusInv(Next(c, FastEdge(strobe)))
  {
    var c' := Next(c, FastEdge(strobe));
    FastIs(c.d, c.w, strobe);
    if !c.d.trig && c'.d.trig {
      RequestKeeps(c, c');
    } else {
      NoRequestKeeps(c, c');
    }
  }

  // --- The sequence of steps and the output registers ------------------------------------

  /** The step of transaction n: 0 to 23 once, then 25 to 60 over and over. */
  function Scheduled(n: nat): (step: nat)
    ensures step <= 60 && step != 24
    ensures n < 24 ==> step == n
    ensures n >= 24 ==> step >= 25
  {
    if n < 24 then n
    else if n == 24 || Scheduled(n - 1) == 60 then 25
    else Scheduled(n - 1) + 1
  }

  /** Where the sequencer stands after n requests. */
  ghost predicate InSequence(d: Sequencer, n: nat) {
    match d.phase
    case STARTUP => n == 0 && d.step == 0 && !d.trig
    case CONFIG => d.step == n <= 24
    case READ => n >= 24 && if d.step == 24 then !d.trig && (n == 24 || Scheduled(n - 1) == 60)
                            else n > 24 && d.step == Scheduled(n - 1)
    case WAITING => n > 24 && d.step == 60 == Scheduled(n - 1) && !d.trig
  }

  /** Request n is for its step of the schedule. */
  ghost predicate Planned(q: Request, n: nat) {
    q == Request(Entry(Scheduled(n)), Size(Scheduled(n)))
  }

  function Seen(bits: seq<Bit>): (v: seq<bool>)
    ensures |v| == |bits|
  {
    seq(|bits|, i requires 0 <= i < |bits| => bits[i].seen)
  }

  /** The two data bytes of a read: they follow the address byte. */
  function Answer(bits: seq<Bit>): seq<bool> {
    if |bits| == 27 then TwoBytes(Seen(bits), 9) else []
  }

  /** What the registers hold once the answers of the first n transactions are stored. */
  function Outputs(base: map<nat, seq<bool>>, log: seq<seq<Bit>>, n: nat): map<nat, seq<bool>>
    requires n <= |log|
  {
    if n == 0 then base
    else if IsReading(Scheduled(n - 1)) then Outputs(base, log, n - 1)[Scheduled(n - 1) := Answer(log[n - 1])]
    else Outputs(base, log, n - 1)
  }

  /** How many of n transactions have been dealt with. */
  function Settled(d: Sequencer, n: nat): nat {
    if n > 0 && (d.phase == CONFIG || (d.phase == READ && d.step != 24)) then n - 1 else n
  }

  ghost predicate Filled(d: Sequencer, base: map<nat, seq<bool>>, log: seq<seq<Bit>>, n: nat) {
    Settled(d, n) <= |log| && d.outputs == Outputs(base, log, Settled(d, n))
  }

  ghost predicate SeqInv(c: Chip) {
    InSequence(c.d, |c.asked|) && Filled(c.d, c.base, c.bus.log, |c.asked|) && AllPlanned(c.asked)
  }

  ghost predicate Inv(c: Chip) {
    BusInv(c) && SeqInv(c)
  }

  lemma {:induction false} OutputsStay(base: map<nat, seq<bool>>, log: seq<seq<Bit>>, log': seq<seq<Bit>>, n: nat)
    requires n <= |log| <= |log'| && forall i | 0 <= i < n :: log'[i] == log[i]
    ensures Outputs(base, log', n) == Outputs(base, log, n)
  {
    if n > 0 {
      OutputsStay(base, log, log', n - 1);
    }
  }

  lemma {:induction false} ConfigStoresNothing(base: map<nat, seq<bool>>, log: seq<seq<Bit>>, n: nat)
    requires n <= |log| && n <= 24
    ensures Outputs(base, log, n) == base
  {
    if n > 0 {
      ConfigStoresNothing(base, log, n - 1);
    }
  }

  /** The receive register holds the answer of the last transaction. */
  lemma RegisterIsAnswer(bits: seq<Bit>, rreg: seq<bool>)
    requires Received(bits, rreg, 27)
    ensures TwoBytes(rreg, 18) == Answer(bits)
  {
    forall j | 0 <= j < 27 ensures Seen(bits)[j] == rreg[9 + j] {}
  }

  /** Read back at rest, the answer of the last transaction goes to its register. */
  lemma AnswerIsStored(d: Sequencer, w: Engine, base: map<nat, seq<bool>>, log: seq<seq<Bit>>)
    requires Wide(d, w) && d.phase == READ && InSequence(d, |log|) && Filled(d, base, log, |log|)
    requires IsReading(d.step) ==> log != [] && Received(log[|log| - 1], w.rreg, 27)
    ensures Stored(d, w).outputs == Outputs(base, log, |log|)
  {
    if IsReading(d.step) {
      RegisterIsAnswer(log[|log| - 1], w.rreg);
    }
  }

  /** The request of a reading is for 27 bits. */
  lemma ReadingSize(q: Request, n: nat)
    requires Planned(q, n) && IsReading(Scheduled(n))
    ensures q.size == 27
  {}

  /** What the sequencer does in one edge at rest or otherwise, by phase. */
  lemma ConfigEdge(d: Sequencer, w: Engine, base: map<nat, seq<bool>>, log: seq<seq<Bit>>, strobe: bool)
    requires Wide(d, w) && d.phase == CONFIG && w.ready && !d.trig
    requires InSequence(d, |log|) && Filled(d, base, log, |log|)
    ensures var d' := Fast(d, w, strobe);
      if d'.trig then InSequence(d', |log| + 1) && Filled(d', base, log, |log| + 1) && Planned(Request(d'.treg, d'.bcnt), |log|)
      else InSequence(d', |log|) && Filled(d', base, log, |log|)
  {
    ConfigStoresNothing(base, log, Settled(d, |log|));
    ConfigStoresNothing(base, log, |log|);
  }

  /** The step after the one the sequencer stands at. */
  lemma NextStep(d: Sequencer, n: nat)
    requires d.phase == READ && InSequence(d, n) && d.step <= 59
    ensures Scheduled(n) == d.step + 1
  {}

  lemma ReadEdge(d: Sequencer, w: Engine, base: map<nat, seq<bool>>, log: seq<seq<Bit>>, strobe: bool)
    requires Wide(d, w) && d.phase == READ && w.ready && !d.trig
    requires InSequence(d, |log|) && Stored(d, w).outputs == Outputs(base, log, |log|)
    ensures var d' := Fast(d, w, strobe);
      if d'.trig then InSequence(d', |log| + 1) && Filled(d', base, log, |log| + 1) && Planned(Request(d'.treg, d'.bcnt), |log|)
      else InSequence(d', |log|) && Filled(d', base, log, |log|)
  {
    if d.step <= 59 {
      NextStep(d, |log|);
      ReadIssues(Stored(d, w), Issue(Stored(d, w), d.step + 1, d.step + 1), base, log, d.step + 1);
    }
  }

  lemma ReadIssues(d: Sequencer, d': Sequencer, base: map<nat, seq<bool>>, log: seq<seq<Bit>>, step: nat)
    requires d.phase == READ && 25 <= step <= 60 && step == Scheduled(|log|) && |log| >= 24
    requires d.outputs == Outputs(base, log, |log|)
    requires d' == d.(treg := Entry(step), bcnt := Size(step), step := step, trig := true)
    ensures InSequence(d', |log| + 1) && Filled(d', base, log, |log| + 1) && Planned(Request(d'.treg, d'.bcnt), |log|)
  {}

  /** Edges without a request. */
  lemma QuietEdge(d: Sequencer, w: Engine, base: map<nat, seq<bool>>, log: seq<seq<Bit>>, n: nat, strobe: bool)
    requires Wide(d, w) && (!w.ready || d.trig || d.phase == STARTUP || d.phase == WAITING)
    requires InSequence(d, n) && Filled(d, base, log, n)
    ensures var d' := Fast(d, w, strobe); InSequence(d', n) && Filled(d', base, log, n) && (d'.trig ==> d.trig)
  {}

  ghost predicate AllPlanned(asked: seq<Request>) {
    forall i | 0 <= i < |asked| :: Planned(asked[i], i)
  }

  lemma PlanGrows(asked: seq<Request>, q: Request)
    requires AllPlanned(asked) && Planned(q, |asked|)
    ensures AllPlanned(asked + [q])
  {
    forall i | 0 <= i < |asked + [q]| ensures Planned((asked + [q])[i], i) {
      if i < |asked| {
        assert Planned(asked[i], i);
      }
    }
  }

  lemma RestEdge(c: Chip, strobe: bool)
    requires Inv(c) && Resting(c) && c.w.ready && (c.d.phase == CONFIG || c.d.phase == READ)
    ensures var d', n := Fast(c.d, c.w, strobe), |c.asked|;
      if d'.trig then InSequence(d', n + 1) && Filled(d', c.base, c.bus.log, n + 1) && Planned(Request(d'.treg, d'.bcnt), n)
      else InSequence(d', n) && Filled(d', c.base, c.bus.log, n)
  {
    if c.d.phase == CONFIG {
      ConfigEdge(c.d, c.w, c.base, c.bus.log, strobe);
    } else {
      if IsReading(c.d.step) {
        ReadingSize(c.asked[|c.asked| - 1], |c.asked| - 1);
      }
      AnswerIsStored(c.d, c.w, c.base, c.bus.log);
      ReadEdge(c.d, c.w, c.base, c.bus.log, strobe);
    }
  }

  lemma RestEdgeKeeps(c: Chip, d': Sequencer, c': Chip)
    requires !c.d.trig && AllPlanned(c.asked) && c'.d == d' && c'.bus == c.bus && c'.base == c.base
    requires c'.asked == if d'.trig then c.asked + [Request(d'.treg, d'.bcnt)] else c.asked
    requires if d'.trig then InSequence(d', |c.asked| + 1) && Filled(d', c.base, c.bus.log, |c.asked| + 1)
                             && Planned(Request(d'.treg, d'.bcnt), |c.asked|)
             else InSequence(d', |c.asked|) && Filled(d', c.base, c.bus.log, |c.asked|)
    ensures SeqInv(c')
  {
    if d'.trig {
      PlanGrows(c.asked, Request(d'.treg, d'.bcnt));
    }
  }

  lemma FastKeepsSeq(c: Chip, strobe: bool)
    requires Inv(c)
    ensures SeqInv(Next(c, FastEdge(strobe)))
  {
    if c.w.ready && !c.d.trig && (c.d.phase == CONFIG || c.d.phase == READ) {
      assert Resting(c);
      RestEdge(c, strobe);
      RestEdgeKeeps(c, Fast(c.d, c.w, strobe), Next(c, FastEdge(strobe)));
    } else {
      QuietEdge(c.d, c.w, c.base, c.bus.log, |c.asked|, strobe);
    }
  }

  lemma SlowKeepsSeq(c: Chip, c': Chip)
    requires Inv(c) && c'.d == c.d && c'.asked == c.asked && c'.base == c.base
    requires c'.bus.log == c.bus.log || Extends(c.bus.log, c'.bus.log, c.bus.bits)
    ensures SeqInv(c')
  {
    OutputsStay(c.base, c.bus.log, c'.bus.log, Settled(c.d, |c.asked|));
  }

  lemma FastKeeps(c: Chip, strobe: bool)
    requires Inv(c)
    ensures Inv(Next(c, FastEdge(strobe)))
  {
    FastKeepsBus(c, strobe);
    FastKeepsSeq(c, strobe);
  }

  lemma SlowKeeps(c: Chip, released: bool)
    requires Inv(c) && c.ticked
    ensures Inv(Next(c, SlowEdge(released)))
  {
    SlowKeepsBus(c, released);
    SlowKeepsSeq(c, Next(c, SlowEdge(released)));
  }

  ghost predicate IsRun(cs: seq<Chip>, es: seq<Event>) {
    && |cs| == |es| + 1 && Start(cs[0])
    && forall i | 0 <= i < |es| :: Steps(cs[i], es[i], cs[i + 1])
  }

  ghost predicate Steps(c: Chip, e: Event, c': Chip) {
    Enabled(c, e) && c' == Next(c, e)
  }

  lemma StepKeeps(c: Chip, e: Event, c': Chip)
    requires Steps(c, e, c')
    ensures Inv(c) ==> Inv(c')
  {
    if Inv(c) {
      match e
      case FastEdge(strobe) => FastKeeps(c, strobe);
      case SlowEdge(released) => SlowKeeps(c, released);
    }
  }

  lemma {:induction false} EveryRunKeeps(cs: seq<Chip>, es: seq<Event>, i: nat)
    requires IsRun(cs, es) && i < |cs|
    ensures Inv(cs[i])
  {
    if i > 0 {
      EveryRunKeeps(cs, es, i - 1);
      assert Steps(cs[i - 1], es[i - 1], cs[i - 1 + 1]);
      StepKeeps(cs[i - 1], es[i - 1], cs[i]);
    }
  }

  // --- What follows -------------------------------------------------------------------------

  /** Each requested step causes exactly one transaction: all requests but perhaps the
      last are on the bus log, in order, and each carried exactly the bytes of its step. */
  lemma OneTransactionPerStep(c: Chip, i: nat)
    requires Inv(c)
    ensures |c.bus.log| <= |c.asked| <= |c.bus.log| + 1 && !c.bus.bad
    ensures i < |c.bus.log| ==>
              |c.bus.log[i]| == |Driven(Scheduled(i))|
              && forall j | 0 <= j < |c.bus.log[i]| :: c.bus.log[i][j].driven == Driven(Scheduled(i))[j]
  {
    if i < |c.bus.log| {
      assert Complete(c.bus.log[i], c.asked[i]) && Planned(c.asked[i], i);
    }
  }

  /** From its request to its stop condition, no edge changes the transmit word. */
  lemma TransmitWordIsStable(c: Chip, e: Event)
    requires Inv(c) && Enabled(c, e) && |c.asked| > |c.bus.log|
    ensures Next(c, e).d.treg == c.d.treg == c.asked[|c.bus.log|].treg
  {
    match e
    case FastEdge(strobe) => FastIs(c.d, c.w, strobe);
    case SlowEdge(_) =>
  }

  /** sda changes while scl stays high only to start and to stop a transaction. */
  lemma SdaChangesOnlyAtStartAndStop(c: Chip, e: Event)
    requires BusInv(c) && Enabled(c, e)
    requires var w' := Next(c, e).w; c.w.scl && w'.scl && c.w.sda != w'.sda
    ensures if c.w.sda then c.w.state == START && !c.bus.active && Next(c, e).bus.active
            else c.w.state == STOP_P3 && c.bus.active && !Next(c, e).bus.active
                 && |Next(c, e).bus.log| == |c.bus.log| + 1
  {}

  /** Steps 25 to 60 of a pass are consecutive transactions. */
  lemma {:induction false} PassIsConsecutive(n: nat, step: nat)
    requires n >= 24 && 25 <= step <= Scheduled(n)
    ensures Scheduled(n) - step <= n - 24
    ensures Scheduled(n - (Scheduled(n) - step)) == step
  {
    if step < Scheduled(n) {
      PassIsConsecutive(n - 1, step);
    }
  }

  lemma {:induction false} LastAnswerStays(base: map<nat, seq<bool>>, log: seq<seq<Bit>>, n: nat, m: nat)
    requires m < n <= |log| && IsReading(Scheduled(m))
    requires forall k | m < k < n :: Scheduled(k) != Scheduled(m)
    ensures Scheduled(m) in Outputs(base, log, n) && Outputs(base, log, n)[Scheduled(m)] == Answer(log[m])
  {
    if m < n - 1 {
      LastAnswerStays(base, log, n - 1, m);
    }
  }

  lemma PassOutputs(base: map<nat, seq<bool>>, log: seq<seq<Bit>>, n: nat, step: nat)
    requires 24 < n <= |log| && Scheduled(n - 1) == 60 && IsReading(step)
    ensures LastAnswer(Outputs(base, log, n), log, n, step)
  {
    PassIsConsecutive(n - 1, step);
    var m := n - 1 - (60 - step);
    forall k | m < k < n ensures Scheduled(k) != step {
      PassIsConsecutive(n - 1, 60 - (n - 1 - k));
    }
    LastAnswerStays(base, log, n, m);
  }

  /** The register of a step holds the two bytes seen in the transaction of that step
      in the pass that ended with transaction n - 1. */
  ghost predicate LastAnswer(outputs: map<nat, seq<bool>>, log: seq<seq<Bit>>, n: nat, step: nat) {
    var m := n - 1 - (60 - step);
    && step <= 60 && 0 <= m < |log| && Scheduled(m) == step
    && step in outputs && outputs[step] == Answer(log[m])
  }

  lemma WaitingOutputs(d: Sequencer, base: map<nat, seq<bool>>, log: seq<seq<Bit>>, n: nat, step: nat)
    requires d.phase == WAITING && InSequence(d, n) && Filled(d, base, log, n) && |log| <= n && IsReading(step)
    ensures LastAnswer(d.outputs, log, |log|, step)
  {
    PassOutputs(base, log, n, step);
  }

  /** When a pass is over, every register holds the two bytes seen on the wire in its
      own transaction of that pass. */
  lemma PassFillsRegisters(c: Chip, step: nat)
    requires Inv(c) && c.d.phase == WAITING && IsReading(step)
    ensures LastAnswer(c.d.outputs, c.bus.log, |c.bus.log|, step)
  {
    WaitingOutputs(c.d, c.base, c.bus.log, |c.asked|, step);
  }

  lemma {:induction false} ScheduleIs(n: nat)
    ensures Scheduled(n) == if n < 24 then n else 25 + (n - 24) % 36
  {
    if n > 24 {
      ScheduleIs(n - 1);
    }
  }

  /** The steps issued are 0 to 23 once and then 25 to 60 over and over: request i carries
      the table entry of its step, and entry 24 is never asked for. */
  lemma IssuedSteps(c: Chip, i: nat)
    requires Inv(c) && i < |c.asked|
    ensures var step := if i < 24 then i else 25 + (i - 24) % 36;
            step <= 60 && step != 24 && c.asked[i] == Request(Entry(step), Size(step))
  {
    ScheduleIs(i);
    assert Planned(c.asked[i], i);
  }

  // --- The object over time ----------------------------------------------------------------

  lemma RunGoesOn(cs: seq<Chip>, es: seq<Event>, e: Event, c': Chip)
    requires IsRun(cs, es) && Steps(cs[|es|], e, c')
    ensures IsRun(cs + [c'], es + [e])
  {
    var cs', es' := cs + [c'], es + [e];
    forall i | 0 <= i < |es'| ensures Steps(cs'[i], es'[i], cs'[i + 1]) {
      if i < |es| {
        assert Steps(cs[i], es[i], cs[i + 1]);
      }
    }
  }

  method Edge(m: Monitor, e: Event)
    requires Wide(m.Data(), m.Bits())
    modifies m
    ensures m.Data() == if e.FastEdge? then Fast(old(m.Data()), old(m.Bits()), e.strobe) else old(m.Data())
    ensures m.Bits() == if e.SlowEdge? then Slow(old(m.Data()), old(m.Bits()), e.released) else old(m.Bits())
  {
    match e
    case FastEdge(strobe) => m.Clock(false, strobe);
    case SlowEdge(released) => m.BusClock(false, released);
  }

  /** A monitor from reset and any edges of its two clocks, a slow one only after a fast
      one: what happens is a run, watched by the decoder. */
  method Operate(edges: seq<Event>) returns (m: Monitor, ghost cs: seq<Chip>, ghost es: seq<Event>)
    ensures fresh(m) && IsRun(cs, es) && Inv(cs[|es|]) && cs[|es|].d == m.Data() && cs[|es|].w == m.Bits()
  {
    m := new Monitor();
    var ticked := false;
    cs, es := [Chip(m.Data(), m.Bits(), [], false, Bus(false, [], Nothing, [], false), m.Data().outputs)], [];
    for n := 0 to |edges|
      invariant fresh(m) && IsRun(cs, es)
      invariant cs[|es|].d == m.Data() && cs[|es|].w == m.Bits() && cs[|es|].ticked == ticked
    {
      ghost var c := cs[|es|];
      EveryRunKeeps(cs, es, |es|);
      if edges[n].FastEdge? || ticked {
        Edge(m, edges[n]);
        ticked := edges[n].FastEdge?;
        RunGoesOn(cs, es, edges[n], Next(c, edges[n]));
        cs, es := cs + [Next(c, edges[n])], es + [edges[n]];
      }
    }
    EveryRunKeeps(cs, es, |es|);
  }
}
