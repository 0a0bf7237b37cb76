/** control.c, write_adc_table: the software loop that feeds the SPI engine a table,
    word by word, with nothing but a sleep to keep them in step. */
module SpiTable {
  import opened Octets
  import opened SpiEngine
  import Binary

  const MAX_TABLE := 16000
  const ADC_TABLE := 0x60

  /** usleep(50) in clocks of the 100 MHz engine. */
  const SLEEP := 5000

  /** A register write may take any time below that of one transfer. */
  const MAX_LAG := 1432

  /** i << 16 | ADC_TABLE; the shifted index has no bit in common with ADC_TABLE. */
  function TableAddr(i: nat): Word32
    requires i < MAX_TABLE
  {
    i * 0x1_0000 + ADC_TABLE
  }

  /** htonl of word i, read from the message by a little-endian processor. */
  function TableData(msg: seq<Octet>, i: nat): Word32
    requires 4 * i + 4 <= |msg|
  {
    FromBe32(msg[4 * i..4 * i + 4])
  }

  /** What the table's first n words should look like to the receiver. */
  function TableWords(msg: seq<Octet>, n: nat): (w: seq<seq<bool>>)
    requires n <= MAX_TABLE && 4 * n <= |msg|
    ensures |w| == n
  {
    seq(n, i requires 0 <= i < n => WordOf(TableAddr(i), TableData(msg, i)))
  }

  function Extended(words: seq<seq<bool>>, msg: seq<Octet>, n: nat): seq<seq<bool>>
    requires n <= MAX_TABLE && 4 * n <= |msg|
  {
    words + TableWords(msg, n)
  }

  lemma OneMoreWord(words: seq<seq<bool>>, msg: seq<Octet>, i: nat)
    requires i < MAX_TABLE && 4 * (i + 1) <= |msg|
    ensures Extended(words, msg, i + 1) == Plus(Extended(words, msg, i), WordOf(TableAddr(i), TableData(msg, i)))
  {
    var longer, plus := Extended(words, msg, i + 1), Plus(Extended(words, msg, i), WordOf(TableAddr(i), TableData(msg, i)));
    forall k | 0 <= k < |longer| ensures longer[k] == plus[k] {}
  }

  /** The bus registers, the engine and the receiver at the end of its wires. Time
      passes only in Clock. */
  class Board {
    const spi: Engine
    var receiver: Receiver
    var data: Word32
    var addr: Word32
    var we: bool

    constructor ()
      ensures Idle(Now()) && !we && receiver.words == [] && fresh(spi)
    {
      spi := new Engine();
      receiver, data, addr, we := Receiver([], []), 0, 0, false;
      new;
      FirstEdgeIsIdle(Now(), Input(we, WordOf(addr, data), false));
      spi.Edge(we, WordOf(addr, data), false);
    }

    ghost function Now(): Link
      reads this, spi
    {
      Link(spi.Now(), receiver)
    }

    ghost function Word(): Word64
      reads this
    {
      WordOf(addr, data)
    }

    /** One clock, whatever the level of the input pin. */
    method Clock(din: bool)
      requires Valid(Now().r)
      modifies this`receiver, spi
      ensures Now() == Tick(old(Now()), Input(we, Word(), din))
    {
      var before := Pins(spi.cs, spi.sclk, spi.dout);
      spi.Edge(we, WordOf(addr, data), din);
      receiver := Sample(receiver, before, Pins(spi.cs, spi.sclk, spi.dout));
    }

    /** Time passes while nothing is sent. */
    method Rest(n: nat)
      requires Idle(Now()) && !we
      modifies this`receiver, spi
      ensures Idle(Now()) && receiver == old(receiver)
    {
      for k := 0 to n
        invariant Idle(Now()) && receiver == old(receiver)
      {
        var din: bool := *;
        IdleStep(Now(), Input(we, Word(), din));
        Clock(din);
      }
    }

    /** Time passes while a word is sent, the write still up. */
    method Hold(n: nat)
      requires Idle(Now()) && we && 1 <= n <= MAX_LAG
      modifies this`receiver, spi
      ensures exists left :: 0 <= left < 1442 && Sending(Now(), Word(), old(receiver.words), left)
    {
      ghost var all := Occupied(Now().r.count);
      var din: bool := *;
      WriteStep(Now(), Input(we, Word(), din));
      Clock(din);
      for k := 1 to n
        invariant Sending(Now(), Word(), old(receiver.words), all - k)
      {
        din := *;
        SendingStep(Now(), Word(), old(receiver.words), all - k, Input(we, Word(), din));
        Clock(din);
      }
    }

    /** Time passes until the word is sent and beyond. */
    method Finish(n: nat, ghost words: seq<seq<bool>>, ghost left: int)
      requires !we && 0 <= left <= n && Sending(Now(), Word(), words, left)
      modifies this`receiver, spi
      ensures Idle(Now()) && receiver.words == Plus(words, Word())
    {
      if left == 0 {
        SendingDone(Now(), Word(), words);
      }
      for k := 0 to n
        invariant k < left ==> Sending(Now(), Word(), words, left - k)
        invariant k >= left ==> Idle(Now()) && receiver.words == Plus(words, Word())
      {
        var din: bool := *;
        if k < left {
          SendingStep(Now(), Word(), words, left - k, Input(we, Word(), din));
        } else {
          IdleStep(Now(), Input(we, Word(), din));
        }
        Clock(din);
        if k + 1 == left {
          SendingDone(Now(), Word(), words);
        }
      }
    }

    /** One turn of the loop: data, address, write up, write down, sleep. */
    method SendWord(spi_data: Word32, spi_addr: Word32)
      requires Idle(Now()) && !we
      modifies this`receiver, this`data, this`addr, this`we, spi
      ensures Idle(Now()) && !we
      ensures receiver.words == Plus(old(receiver.words), WordOf(spi_addr, spi_data))
    {
      var lag: nat :| 1 <= lag <= MAX_LAG;
      data := spi_data;
      Rest(lag);
      lag :| 1 <= lag <= MAX_LAG;
      addr := spi_addr;
      Rest(lag);
      lag :| 1 <= lag <= MAX_LAG;
      we := true;
      Hold(lag);
      ghost var left :| 0 <= left < 1442 && Sending(Now(), Word(), old(receiver.words), left);
      lag :| 1 <= lag <= MAX_LAG;
      var sleep: nat :| SLEEP <= sleep;
      we := false;
      Finish(lag + sleep, old(receiver.words), left);
    }

    /** write_adc_table: the receiver gets every word of the table once and in order;
        a table of more than 16000 words sends nothing. */
    method WriteTable(msg: seq<Octet>, msglen: Word32)
      requires Idle(Now()) && !we && msglen <= |msg|
      modifies this`receiver, this`data, this`addr, this`we, spi
      ensures Idle(Now()) && !we
      ensures msglen / 4 > 16000 ==> receiver.words == old(receiver.words)
      ensures msglen / 4 <= 16000 ==>
                receiver.words == Extended(old(receiver.words), msg, msglen / 4)
    {
      var table_len := msglen / 4;
      if table_len > MAX_TABLE {
        return;
      }
      assert receiver.words == Extended(old(receiver.words), msg, 0);
      for i := 0 to table_len
        invariant Idle(Now()) && !we
        invariant receiver.words == Extended(old(receiver.words), msg, i)
      {
        SendWord(TableData(msg, i), TableAddr(i));
        OneMoreWord(old(receiver.words), msg, i);
      }
    }
  }

  /** No bit of a table's word is lost: read as a number, what the receiver has for
      word i is the address i << 16 | 0x60 followed by the message's own bytes. */
  lemma TableWordIsComplete(msg: seq<Octet>, n: nat, i: nat)
    requires i < n <= MAX_TABLE && 4 * n <= |msg|
    ensures Binary.Value(TableWords(msg, n)[i]) == (i * 0x1_0000 + 0x60) * 0x1_0000_0000 + FromBe32(msg[4 * i..4 * i + 4])
    ensures !TableWords(msg, n)[i][0]
  {
    WordValue(TableAddr(i), TableData(msg, i));
  }
}
