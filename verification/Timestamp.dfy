/** The event receiver's time of day: seconds arrive bit by bit as events, a latch
    event makes them current, and an offset counts clocks since the latch. */
module Timestamp {
  import opened Octets
  import opened Binary

  const ZERO_EVENT: Octet := 0x70
  const ONE_EVENT: Octet := 0x71
  const LATCH_EVENT: Octet := 0x7D

  /** A 32-bit register by bit number. */
  type Bits32 = b: seq<bool> | |b| == 32 witness seq(32, i => false)

  function NoBits(): Bits32 {
    seq(32, i => false)
  }

  datatype Stamp = Stamp(seconds: Bits32, offset: Word32)

  datatype Regs = Regs(pos: nat, temp: Bits32, seconds: Bits32, offset: Word32,
                       clear: bool, clearReg: bool, stamp: Stamp)

  datatype Input = Input(reset: bool, event: Octet)

  predicate IsBit(event: Octet) {
    event == ZERO_EVENT || event == ONE_EVENT
  }

  /** pos - 1 in five bits. */
  function Down(pos: nat): nat {
    if pos == 0 then 31 else pos - 1
  }

  predicate Valid(r: Regs) {
    r.pos < 32
  }

  /** One rising clock edge; every process reads the values from before it. */
  function Step(r: Regs, i: Input): Regs
    requires Valid(r)
  {
    var latch := i.event == LATCH_EVENT;
    Regs(if latch then 31 else if IsBit(i.event) then Down(r.pos) else r.pos,
         if i.reset || r.clearReg then NoBits()
         else if IsBit(i.event) then r.temp[r.pos := i.event == ONE_EVENT] else r.temp,
         if latch then r.temp else r.seconds,
         if latch then 0 else if r.offset == WORD - 1 then 0 else r.offset + 1,
         latch, r.clear,
         if i.reset then Stamp(NoBits(), 0) else Stamp(r.seconds, r.offset))
  }

  class Receiver {
    var pos: nat
    var seconds_tmp: Bits32
    var secondsReg: Bits32
    var offsetReg: Word32
    var clear: bool
    var clear_reg: bool
    var TimeStamp: Stamp

    function State(): Regs
      reads this
    {
      Regs(pos, seconds_tmp, secondsReg, offsetReg, clear, clear_reg, TimeStamp)
    }

    constructor ()
      ensures PowerUp(State())
    {
      pos, seconds_tmp, secondsReg, offsetReg := 31, NoBits(), NoBits(), 0;
      clear, clear_reg, TimeStamp := false, false, Stamp(NoBits(), 0);
    }

    /** A rising edge of Clock. */
    method Edge(reset: bool, eventStream: Octet)
      requires Valid(State())
      modifies this
      ensures State() == Step(old(State()), Input(reset, eventStream)) && Valid(State())
    {
      var pos', seconds_tmp', secondsReg', offsetReg' := pos, seconds_tmp, secondsReg, offsetReg;
      if eventStream == LATCH_EVENT {
        pos' := 31;
      } else if eventStream == ZERO_EVENT || eventStream == ONE_EVENT {
        pos' := Down(pos);
      }
      if reset || clear_reg {
        seconds_tmp' := NoBits();
      } else if eventStream == ZERO_EVENT {
        seconds_tmp' := seconds_tmp[pos := false];
      } else if eventStream == ONE_EVENT {
        seconds_tmp' := seconds_tmp[pos := true];
      }
      if eventStream == LATCH_EVENT {
        secondsReg' := seconds_tmp;
      }
      if eventStream == LATCH_EVENT {
        offsetReg' := 0;
      } else {
        offsetReg' := if offsetReg == WORD - 1 then 0 else offsetReg + 1;
      }
      TimeStamp := if reset then Stamp(NoBits(), 0) else Stamp(secondsReg, offsetReg);
      clear, clear_reg := eventStream == LATCH_EVENT, clear;
      pos, seconds_tmp, secondsReg, offsetReg := pos', seconds_tmp', secondsReg', offsetReg';
    }
  }

  /** The power-up values. The VHDL gives TimeStamp none; it is set at the first edge. */
  predicate PowerUp(r: Regs) {
    && r.pos == 31 && r.temp == NoBits() && r.seconds == NoBits() && r.offset == 0
    && !r.clear && !r.clearReg
  }

  function MsbFirst(b: Bits32): seq<bool> {
    seq(32, i requires 0 <= i < 32 => b[31 - i])
  }

  // --- Decoding -----------------------------------------------------------------

  /** The bits a stream of events spells out. */
  function BitsOf(events: seq<Input>): seq<bool> {
    if events == [] then []
    else
      var e := events[|events| - 1].event;
      var before := BitsOf(events[..|events| - 1]);
      if IsBit(e) then before + [e == ONE_EVENT] else before
  }

  /** The registers after the events, one a clock. */
  function After(r: Regs, events: seq<Input>): (r': Regs)
    requires Valid(r)
    ensures Valid(r')
  {
    if events == [] then r
    else Step(After(r, events[..|events| - 1]), events[|events| - 1])
  }

  predicate NoLatch(events: seq<Input>) {
    forall i | 0 <= i < |events| :: events[i].event != LATCH_EVENT
  }

  predicate NoReset(events: seq<Input>) {
    forall i | 0 <= i < |events| :: !events[i].reset
  }

  /** How many bits come before the shift register is cleared for the last time: two
      clocks after the latch, and at each reset. */
  function Early(events: seq<Input>): nat {
    if events == [] then 0
    else if |events| <= 2 || events[|events| - 1].reset then |BitsOf(events)|
    else Early(events[..|events| - 1])
  }

  /** Of m bits, the last one that falls on digit i of the 32, or -1. */
  function LastFor(m: nat, i: nat): (j: int)
    ensures -1 <= j < m && (j >= 0 ==> j % 32 == i)
    ensures forall k | j < k < m :: k % 32 != i
  {
    if m == 0 then -1 else if (m - 1) % 32 == i then m - 1 else LastFor(m - 1, i)
  }

  /** What is in the shift register: on each digit its last bit, unless it was early. */
  predicate Decoded(temp: Bits32, bits: seq<bool>, early: nat) {
    forall i | 0 <= i < 32 :: temp[31 - i] == Digit(bits, early, i)
  }

  predicate Digit(bits: seq<bool>, early: nat, i: nat) {
    LastFor(|bits|, i) >= early && bits[LastFor(|bits|, i)]
  }

  lemma {:induction false} EarlyGrows(events: seq<Input>)
    ensures Early(events) <= |BitsOf(events)|
  {
    if events != [] {
      EarlyGrows(events[..|events| - 1]);
    }
  }

  /** The registers after the events that follow a latch. */
  predicate Decoding(r: Regs, events: seq<Input>) {
    var bits := BitsOf(events);
    && r.pos == 31 - |bits| % 32
    && (r.clear <==> |events| == 0)
    && (|events| > 0 ==> (r.clearReg <==> |events| == 1))
    && (|events| > 1 ==> Decoded(r.temp, bits, Early(events)))
  }

  lemma PosCounts(m: nat)
    ensures Down(31 - m % 32) == 31 - (m + 1) % 32
  {}

  lemma ClearDecodes(bits: seq<bool>)
    ensures Decoded(NoBits(), bits, |bits|)
  {}

  lemma StepDecodes(r: Regs, before: seq<Input>, i: Input, events: seq<Input>)
    requires Valid(r) && Decoding(r, before) && i.event != LATCH_EVENT && |events| == |before| + 1
    requires BitsOf(events) == if IsBit(i.event) then BitsOf(before) + [i.event == ONE_EVENT] else BitsOf(before)
    requires if |events| > 2 && !i.reset then Early(events) == Early(before) <= |BitsOf(before)|
             else Early(events) == |BitsOf(events)|
    ensures Decoding(Step(r, i), events)
  {
    TempDecodes(r, BitsOf(before), i, BitsOf(events), |events|, Early(events));
    PosCounts(|BitsOf(before)|);
  }

  lemma TempDecodes(r: Regs, before: seq<bool>, i: Input, bits: seq<bool>, n: nat, early: nat)
    requires Valid(r) && n > 0 && r.pos == 31 - |before| % 32 && i.event != LATCH_EVENT
    requires bits == if IsBit(i.event) then before + [i.event == ONE_EVENT] else before
    requires n == 2 ==> r.clearReg
    requires n == 2 || i.reset ==> early == |bits|
    requires n > 2 && !i.reset ==> !r.clearReg && early <= |before| && Decoded(r.temp, before, early)
    ensures n > 1 ==> Decoded(Step(r, i).temp, bits, early)
  {
    if n == 2 || i.reset {
      ClearDecodes(bits);
    } else if n > 2 && IsBit(i.event) {
      BitDecodes(r.temp, before, early, i.event == ONE_EVENT);
    }
  }

  /** One more bit goes to its digit and changes no other. */
  lemma BitDecodes(temp: Bits32, bits: seq<bool>, early: nat, bit: bool)
    requires Decoded(temp, bits, early) && early <= |bits|
    ensures Decoded(temp[31 - |bits| % 32 := bit], bits + [bit], early)
  {
    forall i | 0 <= i < 32
      ensures temp[31 - |bits| % 32 := bit][31 - i] == Digit(bits + [bit], early, i)
    {
      assert temp[31 - i] == Digit(bits, early, i);
    }
  }

  lemma {:induction false} EveryPrefixDecodes(r: Regs, events: seq<Input>)
    requires Valid(r) && r.clear && r.pos == 31 && NoLatch(events)
    ensures Decoding(After(r, events), events)
  {
    if events != [] {
      var before := events[..|events| - 1];
      EveryPrefixDecodes(r, before);
      EarlyGrows(before);
      StepDecodes(After(r, before), before, events[|events| - 1], events);
    }
  }

  /** The seconds that a latch makes current in state r, most significant bit first. */
  function Loaded(r: Regs): seq<bool>
    requires Valid(r)
  {
    MsbFirst(Step(r, Input(false, LATCH_EVENT)).seconds)
  }

  /** The next latch makes current, on each digit, the last bit that fell on it; a zero
      if that one was early or none came. */
  lemma LatchLoads(r: Regs, events: seq<Input>)
    requires Valid(r) && r.clear && r.pos == 31 && NoLatch(events) && |events| >= 2
    ensures Early(events) <= |BitsOf(events)|
    ensures forall i | 0 <= i < 32 :: Loaded(After(r, events))[i] == Digit(BitsOf(events), Early(events), i)
  {
    EveryPrefixDecodes(r, events);
    EarlyGrows(events);
    LoadedIs(After(r, events), BitsOf(events), Early(events));
  }

  lemma LoadedIs(r: Regs, bits: seq<bool>, early: nat)
    requires Valid(r) && Decoded(r.temp, bits, early)
    ensures forall i | 0 <= i < 32 :: Loaded(r)[i] == Digit(bits, early, i)
  {
    forall i | 0 <= i < 32 ensures Loaded(r)[i] == Digit(bits, early, i) {
      assert r.temp[31 - i] == Digit(bits, early, i);
    }
  }

  /** What is in the shift register after a latch, which may find the clear of an earlier
      one still under way. */
  function Kept(start: Regs, reset: bool): Bits32 {
    if reset || start.clearReg then NoBits() else start.temp
  }

  /** A latch less than three clocks after another comes before the clear of that one: it
      loads what the shift register still holds, but for a bit that came between. */
  lemma LatchTooSoon(start: Regs, reset: bool, events: seq<Input>)
    requires Valid(start) && |events| <= 1 && NoLatch(events)
    ensures var r := Step(start, Input(reset, LATCH_EVENT));
            Loaded(After(r, events)) == MsbFirst(
              if |events| == 0 then Kept(start, reset)
              else if start.clear || events[0].reset then NoBits()
              else if IsBit(events[0].event) then Kept(start, reset)[31 := events[0].event == ONE_EVENT]
              else Kept(start, reset))
  {
    var r := Step(start, Input(reset, LATCH_EVENT));
    if |events| == 1 {
      assert events[..0] == [] && After(r, []) == r;
    }
  }

  /** With 32 bits since the last latch, what is loaded lacks the digits that came
      in the two clocks after that latch, and is the value sent otherwise. */
  lemma SecondsLoaded(r: Regs, events: seq<Input>)
    requires Valid(r) && r.clear && r.pos == 31 && NoLatch(events) && |BitsOf(events)| == 32
    ensures Early(events) <= 32
    ensures var bits, early := BitsOf(events), Early(events);
      && Value(bits) == Value(bits[..early]) * Pow2(32 - early) + Value(Loaded(After(r, events)))
      && Value(Loaded(After(r, events))) < Pow2(32 - early)
  {
    BitsNeedClocks(events);
    LatchLoads(r, events);
    LoadedDigits(BitsOf(events), Loaded(After(r, events)), Early(events));
  }

  lemma LoadedDigits(bits: seq<bool>, loaded: seq<bool>, early: nat)
    requires |bits| == |loaded| == 32 && early <= 32
    requires forall i | 0 <= i < 32 :: loaded[i] == Digit(bits, early, i)
    ensures Value(bits) == Value(bits[..early]) * Pow2(|bits| - early) + Value(loaded)
    ensures Value(loaded) < Pow2(|bits| - early)
  {
    forall i | 0 <= i < 32 ensures loaded[i] == (early <= i && bits[i]) {
      DigitOf32(bits, early, i);
    }
    LostDigits(bits, loaded, early);
  }

  /** 32 bits fall on a digit each. */
  lemma DigitOf32(bits: seq<bool>, early: nat, i: nat)
    requires |bits| == 32 && i < 32
    ensures Digit(bits, early, i) == (early <= i && bits[i])
  {
    assert i % 32 == i && LastFor(32, i) == i;
  }

  lemma LostDigits(bits: seq<bool>, loaded: seq<bool>, early: nat)
    requires |bits| == |loaded| && early <= |bits|
    requires forall i | 0 <= i < |bits| :: loaded[i] == (early <= i && bits[i])
    ensures Value(bits) == Value(bits[..early]) * Pow2(|bits| - early) + Value(loaded)
    ensures Value(loaded) < Pow2(|bits| - early)
  {
    var low := bits[early..];
    assert bits == bits[..early] + low;
    assert loaded == Zeros(early) + low;
    ValueAppend(Zeros(early), low);
    ValueZeros(early);
    ValueAppend(bits[..early], low);
    ValueFits(low);
  }

  lemma {:induction false} BitsNeedClocks(events: seq<Input>)
    ensures |BitsOf(events)| <= |events|
  {
    if events != [] {
      BitsNeedClocks(events[..|events| - 1]);
    }
  }

  /** After a latch in any state, 32 bits and another latch load exactly the value sent
      if and only if the digits that came within two clocks of the first latch, or no later
      than a reset, are zeros; so always when none came then. */
  lemma SecondsExactIff(start: Regs, reset: bool, events: seq<Input>)
    requires Valid(start) && NoLatch(events) && |BitsOf(events)| == 32
    ensures Early(events) <= 32
    ensures var r := Step(start, Input(reset, LATCH_EVENT));
            && (Value(Loaded(After(r, events))) == Value(BitsOf(events))
                <==> forall i | 0 <= i < Early(events) :: !BitsOf(events)[i])
  {
    SecondsLoaded(Step(start, Input(reset, LATCH_EVENT)), events);
    var lost := BitsOf(events)[..Early(events)];
    ZeroValue(lost);
    PositivePower(32 - Early(events));
    Product(Value(lost), Pow2(32 - Early(events)));
    assert forall i | 0 <= i < Early(events) :: lost[i] == BitsOf(events)[i];
  }

  // --- A value sent and loaded -------------------------------------------------------------

  /** The events 0x70 and 0x71 of a stream, in order. */
  function Codes(events: seq<Input>): (codes: seq<Octet>)
    ensures forall i | 0 <= i < |codes| :: codes[i] == 0x70 || codes[i] == 0x71
  {
    if events == [] then []
    else
      var e := events[|events| - 1].event;
      var before := Codes(events[..|events| - 1]);
      if e == 0x70 || e == 0x71 then before + [e] else before
  }

  /** A value as it is sent: 0x71 for a one and 0x70 for a zero, most significant first. */
  function Spelled(v: Word32): seq<Octet> {
    seq(32, i requires 0 <= i < 32 => if Digits(v, 32)[i] then 0x71 else 0x70)
  }

  lemma {:induction false} CodesAreBits(events: seq<Input>)
    ensures |BitsOf(events)| == |Codes(events)|
    ensures forall i | 0 <= i < |Codes(events)| :: BitsOf(events)[i] <==> Codes(events)[i] == 0x71
  {
    if events != [] {
      CodesAreBits(events[..|events| - 1]);
    }
  }

  lemma {:induction false} NothingEarly(events: seq<Input>)
    requires NoReset(events) && |events| >= 2 && Codes(events[..2]) == []
    ensures Early(events) == 0
  {
    if |events| == 2 {
      assert events[..2] == events;
      CodesAreBits(events);
    } else {
      assert events[..|events| - 1][..2] == events[..2];
      NothingEarly(events[..|events| - 1]);
    }
  }

  lemma SpelledOut(events: seq<Input>, v: Word32)
    requires Codes(events) == Spelled(v)
    ensures |BitsOf(events)| == 32 && Value(BitsOf(events)) == v
  {
    var bits, digits := BitsOf(events), Digits(v, 32);
    CodesAreBits(events);
    forall i | 0 <= i < 32 ensures bits[i] == digits[i] {
      assert Codes(events)[i] == Spelled(v)[i];
    }
    assert bits == digits;
    Powers();
    DigitsValue(v, 32);
  }

  /** The round trip, from any state: 0x7D, two clocks without 0x70 and 0x71, the digits of
      any value with any other events between them but 0x7D, no reset, and 0x7D again: the
      seconds are the value. */
  lemma SecondsRoundTrip(start: Regs, reset: bool, events: seq<Input>, v: Word32)
    requires Valid(start) && NoReset(events) && forall i | 0 <= i < |events| :: events[i].event != 0x7D
    requires |events| >= 2 && Codes(events[..2]) == [] && Codes(events) == Spelled(v)
    ensures var latched := Step(After(Step(start, Input(reset, 0x7D)), events), Input(false, 0x7D));
            Value(MsbFirst(latched.seconds)) == v
  {
    NothingEarly(events);
    SpelledOut(events, v);
    SecondsExactIff(start, reset, events);
  }

  lemma Product(x: nat, p: nat)
    requires p > 0
    ensures x * p == 0 <==> x == 0
  {}

  // --- Coherence ------------------------------------------------------------------

  /** The registers before edge n. */
  ghost function At(start: Regs, input: nat -> Input, n: nat): (r: Regs)
    requires Valid(start)
    ensures Valid(r)
  {
    if n == 0 then start else Step(At(start, input, n - 1), input(n - 1))
  }

  /** The last edge before n that saw a latch; -1 stands for power-up. */
  ghost function LastLatch(input: nat -> Input, n: nat): (l: int)
    ensures -1 <= l < n && (l >= 0 ==> input(l).event == LATCH_EVENT)
    ensures forall m: nat | l < m < n :: input(m).event != LATCH_EVENT
  {
    if n == 0 then -1 else if input(n - 1).event == LATCH_EVENT then n - 1 else LastLatch(input, n - 1)
  }

  /** The seconds that the latch at edge l made current. */
  ghost function Latched(start: Regs, input: nat -> Input, l: int): Bits32
    requires Valid(start)
  {
    if l < 0 then NoBits() else At(start, input, l).temp
  }

  /** One more clock, counted in 32 bits. */
  lemma CountOn(x: nat, count: nat)
    requires count == x % WORD
    ensures (x + 1) % WORD == if count == WORD - 1 then 0 else count + 1
  {}

  lemma OffsetStep(r: Regs, i: Input)
    requires Valid(r)
    ensures Step(r, i).offset ==
              if i.event == LATCH_EVENT || r.offset == WORD - 1 then 0 else r.offset + 1
  {}

  lemma {:induction false} SecondsOfLatch(start: Regs, input: nat -> Input, n: nat)
    requires PowerUp(start)
    ensures At(start, input, n).seconds == Latched(start, input, LastLatch(input, n))
  {
    if n > 0 {
      SecondsOfLatch(start, input, n - 1);
    }
  }

  lemma {:induction false} OffsetSinceLatch(start: Regs, input: nat -> Input, n: nat)
    requires PowerUp(start)
    ensures At(start, input, n).offset == (n - 1 - LastLatch(input, n)) % WORD
  {
    if n > 0 {
      OffsetSinceLatch(start, input, n - 1);
      OffsetStep(At(start, input, n - 1), input(n - 1));
      if input(n - 1).event != LATCH_EVENT {
        var l := LastLatch(input, n - 1);
        assert LastLatch(input, n) == l;
        CountOn(n - 2 - l, At(start, input, n - 1).offset);
      }
    }
  }

  /** Seconds and offset come from the same latch, and the offset counts the clocks
      since it. */
  lemma Coherent(start: Regs, input: nat -> Input, n: nat)
    requires PowerUp(start)
    ensures At(start, input, n).seconds == Latched(start, input, LastLatch(input, n))
    ensures At(start, input, n).offset == (n - 1 - LastLatch(input, n)) % WORD
  {
    SecondsOfLatch(start, input, n);
    OffsetSinceLatch(start, input, n);
  }

  /** The time of day before edge n, which the TimeStamp register takes at that edge. */
  ghost function Time(start: Regs, input: nat -> Input, n: nat): Stamp
    requires Valid(start)
  {
    Stamp(At(start, input, n).seconds, At(start, input, n).offset)
  }

  lemma StampIsTime(start: Regs, input: nat -> Input, n: nat)
    requires PowerUp(start)
    ensures At(start, input, n + 1).stamp
         == if input(n).reset then Stamp(seq(32, i => false), 0) else Time(start, input, n)
    ensures Time(start, input, n)
         == Stamp(Latched(start, input, LastLatch(input, n)), (n - 1 - LastLatch(input, n)) % WORD)
  {
    Coherent(start, input, n);
  }

  /** Seconds first, then offset. */
  predicate Earlier(a: Stamp, b: Stamp) {
    var x, y := Value(MsbFirst(a.seconds)), Value(MsbFirst(b.seconds));
    x < y || (x == y && a.offset < b.offset)
  }

  ghost predicate Advances(start: Regs, input: nat -> Input, n: nat)
    requires Valid(start)
  {
    Earlier(Time(start, input, n), Time(start, input, n + 1))
  }

  /** Edge n is harmless: a latch brings more seconds than the latch before it, and
      the last latch is less than 2^32 clocks ago. */
  ghost predicate InTime(start: Regs, input: nat -> Input, n: nat)
    requires Valid(start)
  {
    && (input(n).event == LATCH_EVENT ==>
          Value(MsbFirst(Latched(start, input, n))) > Value(MsbFirst(Latched(start, input, LastLatch(input, n)))))
    && n - LastLatch(input, n + 1) < WORD
  }

  lemma InTimeAdvances(start: Regs, input: nat -> Input, n: nat)
    requires PowerUp(start) && InTime(start, input, n)
    ensures Advances(start, input, n)
  {
    Coherent(start, input, n);
    Coherent(start, input, n + 1);
  }

  /** A latch that brings no more seconds sets the time back. */
  lemma LatchSetsBack(start: Regs, input: nat -> Input, n: nat)
    requires PowerUp(start) && input(n).event == LATCH_EVENT
    requires Value(MsbFirst(At(start, input, n).temp)) <= Value(MsbFirst(At(start, input, n).seconds))
    ensures !Advances(start, input, n)
  {
    var now, next := At(start, input, n), At(start, input, n + 1);
    assert next.seconds == now.temp && next.offset == 0;
  }

  /** So does the offset when it wraps. */
  lemma WrapSetsBack(start: Regs, input: nat -> Input, n: nat)
    requires PowerUp(start) && input(n).event != LATCH_EVENT && At(start, input, n).offset == WORD - 1
    ensures !Advances(start, input, n)
  {
    var now, next := At(start, input, n), At(start, input, n + 1);
    assert next.seconds == now.seconds && next.offset == 0;
  }

  lemma LateDoesNotAdvance(start: Regs, input: nat -> Input, n: nat) returns (m: nat)
    requires PowerUp(start) && !InTime(start, input, n)
    ensures m <= n && !Advances(start, input, m)
  {
    var l := LastLatch(input, n + 1);
    if n - l < WORD {
      m := n;
      Coherent(start, input, n);
      LatchSetsBack(start, input, n);
    } else {
      m := l + WORD;
      SameLatch(input, l, m);
      Coherent(start, input, m);
      WrapSetsBack(start, input, m);
    }
  }

  lemma SameLatch(input: nat -> Input, l: int, n: nat)
    requires -1 <= l < n && (l >= 0 ==> input(l).event == LATCH_EVENT)
    requires forall m: nat | l < m < n :: input(m).event != LATCH_EVENT
    ensures LastLatch(input, n) == l
  {}

  lemma {:induction false} Chain(start: Regs, input: nat -> Input, a: nat, b: nat)
    requires Valid(start) && a < b && forall n: nat | a <= n < b :: Advances(start, input, n)
    ensures Earlier(Time(start, input, a), Time(start, input, b))
  {
    assert Advances(start, input, b - 1);
    if a < b - 1 {
      Chain(start, input, a, b - 1);
    }
  }

  /** The time of day strictly increases over every pair of clocks of a run exactly
      if every edge is in time. */
  lemma TimeIncreasesIff(start: Regs, input: nat -> Input, end: nat)
    requires PowerUp(start)
    ensures (forall n: nat | n < end :: InTime(start, input, n))
       <==> (forall a: nat, b: nat | a < b <= end :: Earlier(Time(start, input, a), Time(start, input, b)))
  {
    if forall n: nat | n < end :: InTime(start, input, n) {
      forall n: nat | n < end ensures Advances(start, input, n) {
        InTimeAdvances(start, input, n);
      }
      forall a: nat, b: nat | a < b <= end ensures Earlier(Time(start, input, a), Time(start, input, b)) {
        Chain(start, input, a, b);
      }
    } else {
      var n: nat :| n < end && !InTime(start, input, n);
      var m := LateDoesNotAdvance(start, input, n);
      assert m < m + 1 <= end;
    }
  }

  /** The TimeStamp output itself, with reset low: later clocks show later times. */
  lemma StampsIncrease(start: Regs, input: nat -> Input, a: nat, b: nat)
    requires PowerUp(start) && a < b && !input(a).reset && !input(b).reset
    requires forall n: nat | n < b :: InTime(start, input, n)
    ensures Earlier(At(start, input, a + 1).stamp, At(start, input, b + 1).stamp)
  {
    TimeIncreasesIff(start, input, b);
    StampIsTime(start, input, a);
    StampIsTime(start, input, b);
  }

  // --- The receiver over time ------------------------------------------------------------

  /** The inputs of a stream; what comes after it does not matter. */
  ghost function Feed(stream: seq<Input>): nat -> Input {
    (n: nat) => if n < |stream| then stream[n] else Input(false, 0)
  }

  /** The receiver fed a stream from power-up shows the time of its last latch. */
  method Receive(stream: seq<Input>) returns (receiver: Receiver, ghost start: Regs)
    ensures fresh(receiver) && PowerUp(start) && receiver.State() == At(start, Feed(stream), |stream|)
    ensures receiver.secondsReg == Latched(start, Feed(stream), LastLatch(Feed(stream), |stream|))
    ensures receiver.offsetReg == (|stream| - 1 - LastLatch(Feed(stream), |stream|)) % WORD
  {
    receiver := new Receiver();
    start := receiver.State();
    for n := 0 to |stream|
      invariant fresh(receiver) && receiver.State() == At(start, Feed(stream), n)
    {
      receiver.Edge(stream[n].reset, stream[n].event);
    }
    Coherent(start, Feed(stream), |stream|);
  }
}
