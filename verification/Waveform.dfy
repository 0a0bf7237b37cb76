/** wvfmdata.c: a waveform is popped from the FIFO word by word, unpacked into arrays
    in network byte order, and sent as the bodies of four messages. */
module Waveform {
  import opened Octets
  import opened PscFrame

  // --- Memory of a little-endian processor ----------------------------------------------

  function Le16(n: Word16): (b: seq<Octet>)
    ensures |b| == 2
  {
    [n % 0x100, n / 0x100]
  }

  function Le32(n: Word32): (b: seq<Octet>)
    ensures |b| == 4
  {
    Le16(n % 0x1_0000) + Le16(n / 0x1_0000)
  }

  function Htons(n: Word16): Word16 {
    0x100 * (n % 0x100) + n / 0x100
  }

  function Htonl(n: Word32): Word32 {
    var low: int := Htons(n % 0x1_0000);
    0x1_0000 * low + Htons(n / 0x1_0000)
  }

  lemma HtonsInMemory(n: Word16)
    ensures Le16(Htons(n)) == Be16(n)
  {}

  /** What htonl leaves in memory is the big-endian form. */
  lemma HtonlInMemory(n: Word32)
    ensures Le32(Htonl(n)) == Be32(n)
  {
    HtonsInMemory(n % 0x1_0000);
    HtonsInMemory(n / 0x1_0000);
    var h: int := Htons(n % 0x1_0000);
    assert Htonl(n) / 0x1_0000 == h && Htonl(n) % 0x1_0000 == Htons(n / 0x1_0000);
  }

  /** The bytes of an array in memory. */
  function Image32(s: seq<Word32>): seq<Octet> {
    seq(4 * |s|, i requires 0 <= i < 4 * |s| => Le32(s[i / 4])[i % 4])
  }

  function Image16(s: seq<Word16>): seq<Octet> {
    seq(2 * |s|, i requires 0 <= i < 2 * |s| => Le16(s[i / 2])[i % 2])
  }

  // --- The daemon -----------------------------------------------------------------------

  const STATS := 64
  const SETTINGS := 64
  const BOOW := 128
  const SAMPLES := 16000
  const TRIGGERED := 8000

  /** The words in the order they are popped. */
  type Fifo = nat -> Word32

  /** The big-endian bytes of n words, from word number from on. */
  ghost function BigEndian(fifo: Fifo, from: nat, n: nat): (b: seq<Octet>)
    ensures |b| == 4 * n
  {
    seq(4 * n, i requires 0 <= i < 4 * n => Be32(fifo(from + i / 4))[i % 4])
  }

  /** Two samples are packed in each word, the first one high. */
  function Sample(fifo: Fifo, from: nat, i: nat): Word16 {
    if i % 2 == 0 then fifo(from + i / 2) / 0x1_0000 else fifo(from + i / 2) % 0x1_0000
  }

  predicate IsSample(v: Word16, fifo: Fifo, from: nat, k: nat) {
    v == Htons(Sample(fifo, from, k))
  }

  class Daemon {
    const pulse_stats: array<Word32>
    const eeprom: array<Word32>
    const boow_adc: array<Word16>
    const wvfm_adc: array<Word16>
    const timestamp: array<Word32>

    ghost predicate Valid() {
      && pulse_stats.Length == STATS && eeprom.Length == SETTINGS && boow_adc.Length == BOOW
      && wvfm_adc.Length == SAMPLES && timestamp.Length == 2
      && pulse_stats != eeprom && pulse_stats != timestamp && eeprom != timestamp && boow_adc != wvfm_adc
    }

    constructor ()
      ensures Valid() && fresh(pulse_stats) && fresh(eeprom) && fresh(boow_adc) && fresh(wvfm_adc) && fresh(timestamp)
    {
      pulse_stats := new Word32[STATS](i => 0);
      eeprom := new Word32[SETTINGS](i => 0);
      boow_adc := new Word16[BOOW](i => 0);
      wvfm_adc := new Word16[SAMPLES](i => 0);
      timestamp := new Word32[2](i => 0);
    }

    /** A message as psc_send takes it from memory. */
    ghost function Body(id: nat): seq<Octet>
      reads pulse_stats, eeprom, boow_adc, wvfm_adc, timestamp
    {
      if id == 51 then Image32(pulse_stats[..])
      else if id == 52 then Image32(eeprom[..])
      else if id == 53 then Image16(boow_adc[..])
      else if id == 54 then Image16(wvfm_adc[..])
      else Image32(timestamp[..])
    }

    /** One turn of the loop once wordcnt is at least 8000. Exactly 8000 words make a
        turn that sends the previous waveform again. */
    method Turn(wordcnt: Word32, fifo: Fifo, ns: Word32, s: Word32) returns (sent: seq<Msg>)
      requires Valid() && wordcnt >= 8000
      modifies pulse_stats, eeprom, boow_adc, wvfm_adc, timestamp
      ensures wordcnt > 8000 ==>
                && Body(51) == BigEndian(fifo, 0, 64) && Body(52) == BigEndian(fifo, 64, 64)
                && Body(53) == BigEndian(fifo, 128, 64) && Body(54) == BigEndian(fifo, 192, 8000)
                && Body(55) == Be32(ns) + Be32(s)
      ensures wordcnt > 8000 ==> Body(51) + Body(52) + Body(53) + Body(54) == BigEndian(fifo, 0, 8192)
      ensures wordcnt == 8000 ==> forall id: nat | 51 <= id <= 55 :: Body(id) == old(Body(id))
      ensures sent == [Msg(52, Body(52)), Msg(53, Body(53)), Msg(54, Body(54)), Msg(51, Body(51)), Msg(55, Body(55))]
    {
      if wordcnt > TRIGGERED {
        Words(pulse_stats, fifo, 0);
        Words(eeprom, fifo, STATS);
        Samples(boow_adc, fifo, STATS + SETTINGS);
        Samples(wvfm_adc, fifo, STATS + SETTINGS + BOOW / 2);
        timestamp[0], timestamp[1] := Htonl(ns), Htonl(s);
        HtonlInMemory(ns);
        HtonlInMemory(s);
        assert Image32(timestamp[..]) == Be32(ns) + Be32(s);
        BodiesAreTheFifo(fifo, Body(51), Body(52), Body(53), Body(54));
      }
      sent := [Msg(52, Image32(eeprom[..])), Msg(53, Image16(boow_adc[..])), Msg(54, Image16(wvfm_adc[..])),
               Msg(51, Image32(pulse_stats[..])), Msg(55, Image32(timestamp[..]))];
    }
  }

  /** A loop that pops one word for each element. */
  method Words(a: array<Word32>, fifo: Fifo, from: nat)
    modifies a
    ensures Image32(a[..]) == BigEndian(fifo, from, a.Length)
  {
    for i := 0 to a.Length
      invariant forall k | 0 <= k < i :: a[k] == Htonl(fifo(from + k))
    {
      a[i] := Htonl(fifo(from + i));
    }
    Image32IsBigEndian(a[..], fifo, from);
  }

  /** A loop that pops one word for each two samples. */
  method Samples(a: array<Word16>, fifo: Fifo, from: nat)
    requires a.Length % 2 == 0
    modifies a
    ensures Image16(a[..]) == BigEndian(fifo, from, a.Length / 2)
  {
    var i := 0;
    while i < a.Length
      invariant 0 <= i <= a.Length && i % 2 == 0
      invariant forall k | 0 <= k < i :: IsSample(a[k], fifo, from, k)
    {
      var rdbk := fifo(from + i / 2);
      a[i] := Htons(rdbk / 0x1_0000);
      a[i + 1] := Htons(rdbk % 0x1_0000);
      assert IsSample(a[i], fifo, from, i) && IsSample(a[i + 1], fifo, from, i + 1);
      i := i + 2;
    }
    Image16IsBigEndian(a[..], fifo, from, a.Length / 2);
  }

  lemma Image32IsBigEndian(s: seq<Word32>, fifo: Fifo, from: nat)
    requires forall k | 0 <= k < |s| :: s[k] == Htonl(fifo(from + k))
    ensures Image32(s) == BigEndian(fifo, from, |s|)
  {
    forall i | 0 <= i < 4 * |s| ensures Image32(s)[i] == BigEndian(fifo, from, |s|)[i] {
      HtonlInMemory(fifo(from + i / 4));
    }
  }

  /** A byte of a word, found through its sample. */
  lemma SampleByte(fifo: Fifo, from: nat, i: nat)
    ensures Be16(Sample(fifo, from, i / 2))[i % 2] == Be32(fifo(from + i / 4))[i % 4]
  {
    var k, r := i / 4, i % 4;
    assert i == 4 * k + r && (i / 2) / 2 == k && i % 2 == r % 2 && (i / 2) % 2 == r / 2;
  }

  lemma Image16Byte(s: seq<Word16>, fifo: Fifo, from: nat, n: nat, i: nat)
    requires |s| == 2 * n && i < 4 * n && IsSample(s[i / 2], fifo, from, i / 2)
    ensures |Image16(s)| == 4 * n && Image16(s)[i] == BigEndian(fifo, from, n)[i]
  {
    HtonsInMemory(Sample(fifo, from, i / 2));
    SampleByte(fifo, from, i);
  }

  lemma Same<T>(a: seq<T>, b: seq<T>)
    requires |a| == |b| && forall i | 0 <= i < |a| :: a[i] == b[i]
    ensures a == b
  {}

  lemma Image16IsBigEndian(s: seq<Word16>, fifo: Fifo, from: nat, n: nat)
    requires |s| == 2 * n && forall k | 0 <= k < |s| :: IsSample(s[k], fifo, from, k)
    ensures Image16(s) == BigEndian(fifo, from, n)
  {
    var a, b := Image16(s), BigEndian(fifo, from, n);
    forall i | 0 <= i < 4 * n ensures |a| == 4 * n && a[i] == b[i] {
      var k := i / 2;
      assert IsSample(s[k], fifo, from, k);
      Image16Byte(s, fifo, from, n, i);
    }
    assert n == 0 ==> |a| == 0;
    Same(a, b);
  }

  lemma BigEndianJoins(fifo: Fifo, from: nat, n: nat, m: nat)
    ensures BigEndian(fifo, from, n) + BigEndian(fifo, from + n, m) == BigEndian(fifo, from, n + m)
  {
    var low, high, all := BigEndian(fifo, from, n), BigEndian(fifo, from + n, m), BigEndian(fifo, from, n + m);
    forall j | 0 <= j < 4 * m ensures high[j] == all[4 * n + j] {
      assert (4 * n + j) / 4 == n + j / 4 && (4 * n + j) % 4 == j % 4;
    }
    forall i | 0 <= i < 4 * (n + m) ensures (low + high)[i] == all[i] {
      assert i >= 4 * n ==> high[i - 4 * n] == all[4 * n + (i - 4 * n)];
    }
  }

  /** The bodies of messages 51, 52, 53 and 54, one after the other, are exactly the
      big-endian bytes of the 8192 words in the order they were popped. */
  lemma BodiesAreTheFifo(fifo: Fifo, b51: seq<Octet>, b52: seq<Octet>, b53: seq<Octet>, b54: seq<Octet>)
    requires b51 == BigEndian(fifo, 0, 64) && b52 == BigEndian(fifo, 64, 64)
    requires b53 == BigEndian(fifo, 128, 64) && b54 == BigEndian(fifo, 192, 8000)
    ensures b51 + b52 + b53 + b54 == BigEndian(fifo, 0, 8192)
  {
    BigEndianJoins(fifo, 0, 64, 64);
    BigEndianJoins(fifo, 0, 128, 64);
    BigEndianJoins(fifo, 0, 192, 8000);
  }

  /** The FIFO holds only some words; what is popped beyond them is not data of it. */
  ghost predicate Holds(fifo: Fifo, held: seq<Word32>) {
    forall k | 0 <= k < |held| :: fifo(k) == held[k]
  }

  ghost function BigEndianOf(held: seq<Word32>): (b: seq<Octet>)
    ensures |b| == 4 * |held|
  {
    seq(4 * |held|, i requires 0 <= i < 4 * |held| => Be32(held[i / 4])[i % 4])
  }

  /** A turn always pops 8192 words, though it begins with as few as 8001. With less than
      8192 in the FIFO the bodies begin with its words, and the rest of them, the samples
      after the last word, does not come from it. */
  lemma ShortFifo(fifo: Fifo, held: seq<Word32>, bodies: seq<Octet>)
    requires Holds(fifo, held) && |held| <= 8192 && bodies == BigEndian(fifo, 0, 8192)
    ensures bodies[..4 * |held|] == BigEndianOf(held)
    ensures bodies[4 * |held|..] == BigEndian(fifo, |held|, 8192 - |held|)
  {
    var n := |held|;
    BigEndianJoins(fifo, 0, n, 8192 - n);
    forall i | 0 <= i < 4 * n ensures BigEndian(fifo, 0, n)[i] == BigEndianOf(held)[i] {
      assert fifo(0 + i / 4) == held[i / 4];
    }
    Same(BigEndian(fifo, 0, n), BigEndianOf(held));
  }
}
