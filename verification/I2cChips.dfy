/** Chips on the I2C bus that know only the bytes of each transaction: which of their
    registers the outputs hold after a pass, and how they are configured. */
module I2cChips {
  import opened Octets
  import opened Binary
  import opened I2cMonitor
  import opened I2cBus

  // --- A chip's view of the bus ----------------------------------------------------

  /** Byte k of a transaction; each is followed by an acknowledge bit. */
  function ByteAt(bits: seq<Bit>, k: nat): nat
    requires 9 * k + 9 <= |bits|
  {
    Value(seq(8, i requires 0 <= i < 8 => bits[9 * k + i].driven))
  }

  /** Two bytes or more to the chip at address a, the first after the address being a
      register number. */
  predicate IsWrite(bits: seq<Bit>, a: nat) {
    |bits| >= 18 && a % 2 == 0 && ByteAt(bits, 0) == a
  }

  /** An odd address asks the chip below it for a word. */
  predicate IsRead(bits: seq<Bit>) {
    |bits| >= 27 && ByteAt(bits, 0) % 2 == 1
  }

  /** The register that chip a was last pointed to before transaction n. */
  function Pointer(log: seq<seq<Bit>>, n: nat, a: nat): nat
    requires n <= |log|
  {
    if n == 0 then 0
    else if IsWrite(log[n - 1], a) then ByteAt(log[n - 1], 1)
    else Pointer(log, n - 1, a)
  }

  /** reg(m, a, p) is what register p of chip a holds at transaction m: sixteen bits, most
      significant first. */
  type Registers = (nat, nat, nat) -> seq<bool>

  /** The word on the wire: the first byte after the address is the high one, and the
      acknowledge bit after it does not count. */
  function WordSeen(bits: seq<Bit>): (word: seq<bool>)
    requires |bits| >= 27
    ensures |word| == 16
  {
    seq(16, i requires 0 <= i < 16 => if i < 8 then bits[9 + i].seen else bits[18 + (i - 8)].seen)
  }

  /** A chip that is read answers the word it is pointed to. */
  ghost predicate Answers(log: seq<seq<Bit>>, m: nat, reg: Registers)
    requires m < |log|
  {
    IsRead(log[m]) ==>
      var a := ByteAt(log[m], 0) - 1;
      WordSeen(log[m]) == reg(m, a, Pointer(log, m, a))
  }

  /** The bytes last written to register p of chip a before transaction n. */
  function Written(log: seq<seq<Bit>>, n: nat, a: nat, p: nat): seq<nat>
    requires n <= |log|
  {
    if n == 0 then []
    else if IsWrite(log[n - 1], a) && ByteAt(log[n - 1], 1) == p && |log[n - 1]| == 27 then [ByteAt(log[n - 1], 2)]
    else if IsWrite(log[n - 1], a) && ByteAt(log[n - 1], 1) == p && |log[n - 1]| == 36 then
      [ByteAt(log[n - 1], 2), ByteAt(log[n - 1], 3)]
    else Written(log, n - 1, a, p)
  }

  // --- The bytes of the log -----------------------------------------------------------

  lemma {:induction false} EncodedByte(parts: seq<Part>, k: nat, i: nat)
    requires k < |parts| && i < 8
    ensures Encode(parts)[9 * k + i] == Digits(parts[k].byte, 8)[i]
    decreases k
  {
    var first := Digits(parts[0].byte, 8) + [parts[0].ack];
    if k > 0 {
      EncodedByte(parts[1..], k - 1, i);
      assert Encode(parts)[9 * k + i] == Encode(parts[1..])[9 * k + i - 9];
    } else {
      assert Encode(parts)[i] == first[i];
    }
  }

  /** The transaction carried exactly these bytes. */
  ghost predicate Sent(bits: seq<Bit>, parts: seq<Part>) {
    |bits| == 9 * |parts| && forall k | 0 <= k < |parts| :: ByteAt(bits, k) == parts[k].byte
  }

  ghost predicate AllSent(log: seq<seq<Bit>>) {
    forall m | 0 <= m < |log| :: SentAt(log, m)
  }

  ghost predicate SentAt(log: seq<seq<Bit>>, m: nat)
    requires m < |log|
  {
    Sent(log[m], Parts(Scheduled(m)))
  }

  lemma DrivenIsSent(bits: seq<Bit>, parts: seq<Part>)
    requires |bits| == |Encode(parts)| && forall j | 0 <= j < |bits| :: bits[j].driven == Encode(parts)[j]
    ensures Sent(bits, parts)
  {
    forall k | 0 <= k < |parts| ensures ByteAt(bits, k) == parts[k].byte {
      var byte := seq(8, i requires 0 <= i < 8 => bits[9 * k + i].driven);
      forall i | 0 <= i < 8 ensures byte[i] == Digits(parts[k].byte, 8)[i] {
        EncodedByte(parts, k, i);
      }
      assert byte == Digits(parts[k].byte, 8);
      assert Pow2(8) == 256 by {
        assert Pow2(4) == 16;
        PowerAdds(4, 4);
      }
      DigitsValue(parts[k].byte, 8);
    }
  }

  lemma LogIsSent(c: Chip)
    requires Inv(c)
    ensures AllSent(c.bus.log)
  {
    forall m | 0 <= m < |c.bus.log| ensures SentAt(c.bus.log, m) {
      OneTransactionPerStep(c, m);
      DrivenIsSent(c.bus.log[m], Parts(Scheduled(m)));
    }
  }

  // --- Which register a reading comes from --------------------------------------------------

  /** A pointer stays until the chip is written again. */
  lemma {:induction false} PointerStays(log: seq<seq<Bit>>, m: nat, n: nat, a: nat)
    requires m < n <= |log| && IsWrite(log[m], a) && forall k | m < k < n :: !IsWrite(log[k], a)
    ensures Pointer(log, n, a) == ByteAt(log[m], 1)
  {
    if m < n - 1 {
      PointerStays(log, m, n - 1, a);
    }
  }

  /** Register p of chip a is what the reading of a step should be of. */
  predicate ReadingOf(step: nat, a: nat, p: nat) {
    || (25 <= step <= 28 && a == 0x90 + 2 * (step - 25) && p == 0x00)
    || (37 <= step <= 44 && a == 0x80 + 2 * (step - 37) && p == 0x02)
    || (53 <= step <= 60 && a == 0x80 + 2 * (step - 53) && p == 0x04)
  }

  /** The step that points the chip of a reading to its register. */
  function PointingStep(step: nat): int {
    if step <= 28 then step - 20 else step - 8
  }

  /** The step of transaction k may stand between those two. */
  predicate Between(k: nat, step: nat) {
    if step <= 28 then Scheduled(k) != step - 20 && Scheduled(k) > 4 else step - 8 < Scheduled(k) < step
  }

  lemma StepsBetween(log: seq<seq<Bit>>, k: nat, step: nat, a: nat, p: nat)
    requires AllSent(log) && k < |log| && ReadingOf(step, a, p) && Between(k, step)
    ensures !IsWrite(log[k], a)
  {
    assert SentAt(log, k);
  }

  lemma PointsTo(log: seq<seq<Bit>>, m: nat, step: nat, a: nat, p: nat)
    requires AllSent(log) && m < |log| && ReadingOf(step, a, p) && Scheduled(m) == PointingStep(step)
    ensures IsWrite(log[m], a) && ByteAt(log[m], 1) == p
  {
    assert SentAt(log, m);
  }

  /** The reading of a step is the word of register p of chip a. */
  ghost predicate Reads(log: seq<seq<Bit>>, m: nat, a: nat, p: nat) {
    m < |log| && |log[m]| == 27 && ByteAt(log[m], 0) == a + 1 && a % 2 == 0 && Pointer(log, m, a) == p
  }

  lemma ReadingIs(log: seq<seq<Bit>>, from: nat, m: nat, step: nat, a: nat, p: nat)
    requires AllSent(log) && from < m < |log| && ReadingOf(step, a, p)
    requires Scheduled(m) == step && Scheduled(from) == PointingStep(step)
    requires forall k | from < k < m :: Between(k, step)
    ensures Reads(log, m, a, p)
  {
    PointsTo(log, from, step, a, p);
    forall k | from < k < m ensures !IsWrite(log[k], a) {
      StepsBetween(log, k, step, a, p);
    }
    PointerStays(log, from, m, a);
    assert SentAt(log, m);
    AsksFor(log[m], step, a, p);
  }

  lemma AsksFor(bits: seq<Bit>, step: nat, a: nat, p: nat)
    requires ReadingOf(step, a, p) && Sent(bits, Parts(step))
    ensures |bits| == 27 && ByteAt(bits, 0) == a + 1
  {}

  /** A pass is over: the log ends with step 60. */
  ghost predicate PassOver(log: seq<seq<Bit>>) {
    AllSent(log) && |log| > 24 && Scheduled(|log| - 1) == 60
  }

  /** The step of the transaction d before the last of a pass. */
  lemma PassStep(n: nat, d: nat)
    requires n > 24 && Scheduled(n - 1) == 60 && d <= 35
    ensures n - 1 - d >= 24 && Scheduled(n - 1 - d) == 60 - d
  {
    PassIsConsecutive(n - 1, 60 - d);
  }

  /** The pointers for the temperatures are written once, at the start. */
  lemma TemperatureReads(log: seq<seq<Bit>>, step: nat, a: nat, p: Octet)
    requires PassOver(log) && ReadingOf(step, a, p) && step <= 28
    ensures |log| - 61 + step >= 0 && Reads(log, |log| - 61 + step, a, p)
  {
    PassStep(|log|, 60 - step);
    var m := |log| - 61 + step;
    forall k | step - 20 < k < m ensures Between(k, step) {}
    ReadingIs(log, step - 20, m, step, a, p);
  }

  /** Those for voltages and currents eight transactions before each reading. */
  lemma WordReads(log: seq<seq<Bit>>, step: nat, a: nat, p: Octet)
    requires PassOver(log) && ReadingOf(step, a, p) && step > 28
    ensures |log| - 61 + step >= 0 && Reads(log, |log| - 61 + step, a, p)
  {
    var m := |log| - 61 + step;
    PassStep(|log|, 60 - step);
    PassStep(|log|, 68 - step);
    BetweenPointerAndReading(|log|, step, m);
    ReadingIs(log, m - 8, m, step, a, p);
  }

  lemma BetweenPointerAndReading(n: nat, step: nat, m: nat)
    requires n > 24 && Scheduled(n - 1) == 60 && 37 <= step <= 60 && m == n - 61 + step && m >= 8
    ensures forall k | m - 8 < k < m :: Between(k, step)
  {
    forall k | m - 8 < k < m ensures Between(k, step) {
      PassStep(n, n - 1 - k);
    }
  }

  lemma AnswerIsWord(bits: seq<Bit>)
    requires |bits| == 27
    ensures Answer(bits) == WordSeen(bits)
  {}

  /** Output step holds register p of chip a, as it was at its transaction. */
  ghost predicate Shows(outputs: map<nat, seq<bool>>, log: seq<seq<Bit>>, step: nat, reg: Registers, a: nat, p: nat) {
    |log| - 61 + step >= 0 && step in outputs && outputs[step] == reg(|log| - 61 + step, a, p)
  }

  lemma OutputShows(outputs: map<nat, seq<bool>>, log: seq<seq<Bit>>, step: nat, reg: Registers, a: nat, p: Octet)
    requires PassOver(log) && ReadingOf(step, a, p) && LastAnswer(outputs, log, |log|, step)
    requires forall m | 0 <= m < |log| :: Answers(log, m, reg)
    ensures Shows(outputs, log, step, reg, a, p)
  {
    if step <= 28 {
      TemperatureReads(log, step, a, p);
    } else {
      WordReads(log, step, a, p);
    }
    var m := |log| - 61 + step;
    AnswerIsWord(log[m]);
    assert Answers(log, m, reg);
  }

  lemma PassIsOver(c: Chip)
    requires Inv(c) && c.d.phase == WAITING
    ensures |c.bus.log| > 24 && Scheduled(|c.bus.log| - 1) == 60
  {
    assert Settled(c.d, |c.asked|) == |c.asked| == |c.bus.log|;
  }

  /** Outputs 37 to 44 hold register 0x02, the bus voltage, of the chips 0x80, 0x82, ...
      0x8e; outputs 53 to 60 hold their register 0x04, the current; outputs 25 to 28 hold
      register 0x00, the temperature, of the chips 0x90, 0x92, 0x94 and 0x96. */
  ghost predicate RegistersShown(outputs: map<nat, seq<bool>>, log: seq<seq<Bit>>, reg: Registers, i: nat) {
    && (i < 8 ==> Shows(outputs, log, 37 + i, reg, 0x80 + 2 * i, 0x02))
    && (i < 8 ==> Shows(outputs, log, 53 + i, reg, 0x80 + 2 * i, 0x04))
    && (i < 4 ==> Shows(outputs, log, 25 + i, reg, 0x90 + 2 * i, 0x00))
  }

  /** When a pass is over, every output holds the register it is named for, as it was at
      its transaction of this pass. */
  lemma OutputsAreRegisters(c: Chip, reg: Registers, i: nat)
    requires Inv(c) && c.d.phase == WAITING
    requires forall m | 0 <= m < |c.bus.log| :: Answers(c.bus.log, m, reg)
    ensures RegistersShown(c.d.outputs, c.bus.log, reg, i)
  {
    LogIsSent(c);
    PassIsOver(c);
    forall step | IsReading(step) ensures LastAnswer(c.d.outputs, c.bus.log, |c.bus.log|, step) {
      PassFillsRegisters(c, step);
    }
    LogShows(c.d.outputs, c.bus.log, reg, i);
  }

  lemma LogShows(outputs: map<nat, seq<bool>>, log: seq<seq<Bit>>, reg: Registers, i: nat)
    requires PassOver(log) && forall m | 0 <= m < |log| :: Answers(log, m, reg)
    requires forall step | IsReading(step) :: LastAnswer(outputs, log, |log|, step)
    ensures RegistersShown(outputs, log, reg, i)
  {
    if i < 8 {
      OutputShows(outputs, log, 37 + i, reg, 0x80 + 2 * i, 0x02);
      OutputShows(outputs, log, 53 + i, reg, 0x80 + 2 * i, 0x04);
    }
    if i < 4 {
      OutputShows(outputs, log, 25 + i, reg, 0x90 + 2 * i, 0x00);
    }
  }

  // --- Configuration ------------------------------------------------------------------------

  /** After the first 24 transactions no register other than the pointer is written. */
  lemma {:induction false} ConfigurationStays(log: seq<seq<Bit>>, n: nat, a: nat, p: nat)
    requires AllSent(log) && 24 <= n <= |log|
    ensures Written(log, n, a, p) == Written(log, 24, a, p)
  {
    if n > 24 {
      ConfigurationStays(log, n - 1, a, p);
      assert SentAt(log, n - 1);
    }
  }

  lemma {:induction false} WrittenStays(log: seq<seq<Bit>>, m: nat, n: nat, a: nat, p: nat)
    requires m < n <= |log| && forall k | m < k < n :: !(IsWrite(log[k], a) && ByteAt(log[k], 1) == p)
    ensures Written(log, n, a, p) == Written(log, m + 1, a, p)
  {
    if m < n - 1 {
      WrittenStays(log, m, n - 1, a, p);
    }
  }

  /** Chip and register that a configuration step writes. */
  lemma ConfigParts(k: nat)
    requires 1 <= k < 24
    ensures |Parts(k)| >= 3
    ensures Parts(k)[0].byte == if k <= 4 then 0x8e + 2 * k else if k <= 8 then 0x86 + 2 * k
                                else if k <= 16 then 0x6e + 2 * k else 0x5e + 2 * k
    ensures Parts(k)[1].byte == if k <= 4 then 0x03 else if k <= 16 then 0x00 else 0x05
  {}

  predicate LeavesAlone(k: nat, a: nat, p: nat) {
    k <= 60 && |Parts(k)| >= 2 && !(Parts(k)[0].byte == a && Parts(k)[1].byte == p)
  }

  /** Nothing is written to the register after step m - 1 of the configuration. */
  lemma LaterStepsLeave(log: seq<seq<Bit>>, m: nat, a: nat, p: nat)
    requires AllSent(log) && 24 <= |log| && m < 24 && forall k | m < k < 24 :: LeavesAlone(k, a, p)
    ensures Written(log, |log|, a, p) == Written(log, m + 1, a, p)
  {
    forall k | m < k < 24 ensures !(IsWrite(log[k], a) && ByteAt(log[k], 1) == p) {
      assert SentAt(log, k) && LeavesAlone(k, a, p);
    }
    WrittenStays(log, m, 24, a, p);
    ConfigurationStays(log, |log|, a, p);
  }

  /** Step m writes its data, and no later one does. */
  lemma ConfigStep(log: seq<seq<Bit>>, m: nat, a: nat, p: nat)
    requires AllSent(log) && 24 <= |log| && m < 24 && forall k | m < k < 24 :: LeavesAlone(k, a, p)
    requires 3 <= |Parts(m)| <= 4 && Parts(m)[0].byte == a && a % 2 == 0 && Parts(m)[1].byte == p
    ensures Written(log, |log|, a, p)
         == if |Parts(m)| == 3 then [Parts(m)[2].byte] else [Parts(m)[2].byte, Parts(m)[3].byte]
  {
    LaterStepsLeave(log, m, a, p);
    assert SentAt(log, m) && Scheduled(m) == m;
    DataWritten(log, m, Parts(m));
  }

  lemma DataWritten(log: seq<seq<Bit>>, m: nat, parts: seq<Part>)
    requires m < |log| && Sent(log[m], parts) && 3 <= |parts| <= 4 && parts[0].byte % 2 == 0
    ensures Written(log, m + 1, parts[0].byte, parts[1].byte)
         == if |parts| == 3 then [parts[2].byte] else [parts[2].byte, parts[3].byte]
  {}

  lemma VoltageChipConfigured(log: seq<seq<Bit>>, i: nat)
    requires AllSent(log) && |log| >= 24 && i < 8
    ensures Written(log, |log|, 0x80 + 2 * i, 0x00) == [0x41, 0x27]
  {
    var a := 0x80 + 2 * i;
    forall k | 9 + i < k < 24 ensures LeavesAlone(k, a, 0x00) {
      ConfigParts(k);
    }
    ConfigStep(log, 9 + i, a, 0x00);
  }

  lemma VoltageChipCalibrated(log: seq<seq<Bit>>, i: nat)
    requires AllSent(log) && |log| >= 24 && i < 7
    ensures Written(log, |log|, 0x80 + 2 * i, 0x05) == [0x08, 0x00]
  {
    var a := 0x80 + 2 * i;
    forall k | 17 + i < k < 24 ensures LeavesAlone(k, a, 0x05) {
      ConfigParts(k);
    }
    ConfigStep(log, 17 + i, a, 0x05);
  }

  lemma LastChipNotCalibrated(log: seq<seq<Bit>>)
    requires AllSent(log) && |log| >= 24
    ensures Written(log, |log|, 0x8e, 0x05) == []
  {
    forall k | 0 < k < 24 ensures LeavesAlone(k, 0x8e, 0x05) {
      ConfigParts(k);
    }
    LaterStepsLeave(log, 0, 0x8e, 0x05);
    assert SentAt(log, 0);
  }

  lemma TemperatureChipConfigured(log: seq<seq<Bit>>, i: nat)
    requires AllSent(log) && |log| >= 24 && i < 4
    ensures Written(log, |log|, 0x90 + 2 * i, 0x03) == [0x80]
  {
    var a := 0x90 + 2 * i;
    forall k | 1 + i < k < 24 ensures LeavesAlone(k, a, 0x03) {
      ConfigParts(k);
    }
    ConfigStep(log, 1 + i, a, 0x03);
  }

  /** From the end of the configuration on: each of the chips 0x80 to 0x8e has 0x4127 in
      register 0x00; those up to 0x8c have 0x0800 in register 0x05, and 0x8e has never been
      given one; each of the chips 0x90 to 0x96 has 0x80 in register 0x03. */
  lemma ChipsAreConfigured(c: Chip, i: nat)
    requires Inv(c) && |c.bus.log| >= 24
    ensures i < 8 ==> Written(c.bus.log, |c.bus.log|, 0x80 + 2 * i, 0x00) == [0x41, 0x27]
    ensures i < 7 ==> Written(c.bus.log, |c.bus.log|, 0x80 + 2 * i, 0x05) == [0x08, 0x00]
    ensures Written(c.bus.log, |c.bus.log|, 0x8e, 0x05) == []
    ensures i < 4 ==> Written(c.bus.log, |c.bus.log|, 0x90 + 2 * i, 0x03) == [0x80]
  {
    LogIsSent(c);
    LastChipNotCalibrated(c.bus.log);
    if i < 8 {
      VoltageChipConfigured(c.bus.log, i);
    }
    if i < 7 {
      VoltageChipCalibrated(c.bus.log, i);
    }
    if i < 4 {
      TemperatureChipConfigured(c.bus.log, i);
    }
  }
}
