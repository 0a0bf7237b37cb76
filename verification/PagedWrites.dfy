/** i2c_devices.c, write_si5347: 16-bit register addresses reach a device that takes
    8-bit ones, through a page register of which the driver keeps a copy. */
module PagedWrites {
  import opened Octets

  const PAGE_REGISTER := 0x01

  datatype Entry = Entry(address: Word16, value: Octet)

  function Page(e: Entry): Octet {
    e.address / 0x100
  }

  function Low(e: Entry): Octet {
    e.address % 0x100
  }

  /** The device: a write to the page register selects the page, on every page alike;
      any other write goes to the selected page. */
  datatype Device = Device(page: Octet, regs: map<Word16, Octet>)

  function Written(d: Device, register: Octet, value: Octet): Device {
    if register == PAGE_REGISTER then d.(page := value)
    else
      var high: int := d.page;
      d.(regs := d.regs[0x100 * high + register := value])
  }

  /** The device and the driver's copy of its page, newpage. */
  datatype State = State(dev: Device, cached: Octet)

  /** The first two bytes sent select page zero. */
  function Opened(d: Device): State {
    State(Written(d, PAGE_REGISTER, 0), 0)
  }

  /** The page is selected only when it differs from the copy. */
  function Selected(s: State, e: Entry): State {
    if Page(e) == s.cached then s else State(Written(s.dev, PAGE_REGISTER, Page(e)), Page(e))
  }

  function Step(s: State, e: Entry): State {
    Selected(s, e).(dev := Written(Selected(s, e).dev, Low(e), e.value))
  }

  /** After the first n entries. */
  function Run(d: Device, table: seq<Entry>, n: nat): State
    requires n <= |table|
  {
    if n == 0 then Opened(d) else Step(Run(d, table, n - 1), table[n - 1])
  }

  /** The same entries written straight to their 16-bit addresses. */
  function Flat(regs: map<Word16, Octet>, table: seq<Entry>, n: nat): map<Word16, Octet>
    requires n <= |table|
  {
    if n == 0 then regs else Flat(regs, table, n - 1)[table[n - 1].address := table[n - 1].value]
  }

  class Chip {
    var page: Octet
    var regs: map<Word16, Octet>

    function Now(): Device
      reads this
    {
      Device(page, regs)
    }

    /** i2c_write of a register number and a value. */
    method Write(register: Octet, value: Octet)
      modifies this
      ensures Now() == Written(old(Now()), register, value)
    {
      if register == PAGE_REGISTER {
        page := value;
      } else {
        var high: int := page;
        regs := regs[0x100 * high + register := value];
      }
    }

    /** write_si5347. */
    method WriteTable(table: seq<Entry>) returns (newpage: Octet)
      modifies this
      ensures State(Now(), newpage) == Run(old(Now()), table, |table|)
    {
      newpage := 0;
      Write(PAGE_REGISTER, 0);
      for i := 0 to |table|
        invariant State(Now(), newpage) == Run(old(Now()), table, i)
      {
        var page := table[i].address / 0x100;
        if page != newpage {
          newpage := page;
          Write(PAGE_REGISTER, page);
        }
        Write(table[i].address % 0x100, table[i].value);
      }
    }
  }

  predicate Plain(table: seq<Entry>, n: nat)
    requires n <= |table|
  {
    forall i | 0 <= i < n :: Low(table[i]) != 0x01
  }

  /** Without an entry for the page register itself, the copy is the device's page, and
      the device holds what the plain 16-bit writes would have put there. */
  lemma {:induction false} PagedIsFlat(d: Device, table: seq<Entry>, n: nat)
    requires n <= |table| && Plain(table, n)
    ensures Run(d, table, n).cached == Run(d, table, n).dev.page
    ensures Run(d, table, n).dev.regs == Flat(d.regs, table, n)
  {
    if n > 0 {
      PagedIsFlat(d, table, n - 1);
    }
  }

  /** Right before each data write, copy and device both have the entry's page. */
  lemma Selects(d: Device, table: seq<Entry>, n: nat)
    requires n < |table| && Plain(table, n)
    ensures var s := Selected(Run(d, table, n), table[n]);
            s.cached == s.dev.page == Page(table[n]) && s.dev.regs == Run(d, table, n).dev.regs
  {
    PagedIsFlat(d, table, n);
  }

  /** The device stores nothing under an address whose low byte is the page register. */
  lemma {:induction false} NoPageAddresses(d: Device, table: seq<Entry>, n: nat, a: Word16)
    requires n <= |table| && a % 0x100 == PAGE_REGISTER && a !in d.regs
    ensures a !in Run(d, table, n).dev.regs
  {
    if n > 0 {
      NoPageAddresses(d, table, n - 1, a);
    }
  }

  lemma {:induction false} FlatKeeps(regs: map<Word16, Octet>, table: seq<Entry>, n: nat, i: nat)
    requires i < n <= |table|
    ensures table[i].address in Flat(regs, table, n)
  {
    if i < n - 1 {
      FlatKeeps(regs, table, n - 1, i);
    }
  }

  /** Paged and flat writes agree exactly on the tables without an entry for the page
      register. */
  lemma PagedIsFlatIff(d: Device, table: seq<Entry>)
    requires forall a | a in d.regs :: a % 0x100 != 0x01
    ensures Run(d, table, |table|).dev.regs == Flat(d.regs, table, |table|) <==> Plain(table, |table|)
  {
    if Plain(table, |table|) {
      PagedIsFlat(d, table, |table|);
    } else {
      var i :| 0 <= i < |table| && Low(table[i]) == PAGE_REGISTER;
      NoPageAddresses(d, table, |table|, table[i].address);
      FlatKeeps(d.regs, table, |table|, i);
    }
  }
}
