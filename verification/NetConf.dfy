/** sdcard.c: the NET.CNF reader. Each line is cut into words in place, and its
    command updates the network configuration. */
module NetConf {
  import opened Octets

  const NUL := '\0'

  /** lwip_isspace. */
  predicate IsSpace(c: char) {
    c == ' ' || c == '\U{c}' || c == '\n' || c == '\r' || c == '\t' || c == '\U{b}'
  }

  // --- Words --------------------------------------------------------------------

  /** The end of the word that starts at i. */
  function WordEnd(t: seq<char>, i: nat): (j: nat)
    requires i <= |t|
    ensures i <= j <= |t|
    ensures forall k | i <= k < j :: !IsSpace(t[k])
    ensures j < |t| ==> IsSpace(t[j])
    decreases |t| - i
  {
    if i == |t| || IsSpace(t[i]) then i else WordEnd(t, i + 1)
  }

  /** The whitespace-separated words of t from i on. */
  function Words(t: seq<char>, i: nat): seq<seq<char>>
    requires i <= |t|
    decreases |t| - i
  {
    if i == |t| then []
    else if IsSpace(t[i]) then Words(t, i + 1)
    else [t[i..WordEnd(t, i)]] + Words(t, WordEnd(t, i))
  }

  /** Words are cut nowhere but at whitespace, and nothing else is dropped. */
  lemma {:induction false} WordsAreTheText(t: seq<char>, i: nat)
    requires i <= |t|
    ensures Flatten(Words(t, i)) == Squeezed(t, i)
    ensures forall k | 0 <= k < |Words(t, i)| :: Words(t, i)[k] != [] && forall c | c in Words(t, i)[k] :: !IsSpace(c)
    decreases |t| - i
  {
    if i < |t| {
      if IsSpace(t[i]) {
        WordsAreTheText(t, i + 1);
      } else {
        var j := WordEnd(t, i);
        WordsAreTheText(t, j);
        SqueezedWord(t, i, j);
        assert Words(t, i)[1..] == Words(t, j);
      }
    }
  }

  /** t from i on without its whitespace. */
  function Squeezed(t: seq<char>, i: nat): seq<char>
    requires i <= |t|
    decreases |t| - i
  {
    if i == |t| then [] else if IsSpace(t[i]) then Squeezed(t, i + 1) else [t[i]] + Squeezed(t, i + 1)
  }

  lemma {:induction false} SqueezedWord(t: seq<char>, i: nat, j: nat)
    requires i <= j <= |t| && forall k | i <= k < j :: !IsSpace(t[k])
    ensures Squeezed(t, i) == t[i..j] + Squeezed(t, j)
    decreases j - i
  {
    if i == j {
      assert t[i..j] == [];
    } else {
      SqueezedWord(t, i + 1, j);
      OneCharMore(t, i, j, Squeezed(t, j));
    }
  }

  lemma OneCharMore(t: seq<char>, i: nat, j: nat, rest: seq<char>)
    requires i < j <= |t|
    ensures [t[i]] + (t[i + 1..j] + rest) == t[i..j] + rest
  {}

  // --- MAC addresses ----------------------------------------------------------------

  const MAC := 6

  predicate IsHex(c: char) {
    '0' <= c <= '9' || 'A' <= c <= 'F' || 'a' <= c <= 'f'
  }

  /** parse_hex, for a character it accepts. */
  function HexValue(c: char): (v: nat)
    requires IsHex(c)
    ensures v < 16
  {
    if '0' <= c <= '9' then (c - '0') as nat
    else if 'A' <= c <= 'F' then (c - 'A') as nat + 10
    else (c - 'a') as nat + 10
  }

  /** Two digits of group n. */
  predicate Pair(s: seq<char>, n: nat) {
    3 * n + 1 < |s| && IsHex(s[3 * n]) && IsHex(s[3 * n + 1])
  }

  predicate Colon(s: seq<char>, n: nat) {
    3 * n + 2 < |s| && s[3 * n + 2] == ':'
  }

  function PairValue(s: seq<char>, n: nat): Octet
    requires Pair(s, n)
  {
    16 * HexValue(s[3 * n]) + HexValue(s[3 * n + 1])
  }

  /** XX:XX:XX:XX:XX:XX, nothing before or after. */
  predicate IsMac(s: seq<char>) {
    && |s| == 3 * MAC - 1
    && (forall n | 0 <= n < MAC :: Pair(s, n))
    && (forall n | 0 <= n < MAC - 1 :: Colon(s, n))
  }

  function MacOf(s: seq<char>): (mac: seq<Octet>)
    requires IsMac(s)
    ensures |mac| == MAC
  {
    seq(MAC, n requires 0 <= n < MAC => PairValue(s, n))
  }

  const HEX := "0123456789ABCDEF"

  /** The %02X:%02X:... of net_setup. */
  function Printed(mac: seq<Octet>): seq<char>
    requires |mac| == MAC
  {
    seq(3 * MAC - 1, i requires 0 <= i < 3 * MAC - 1 =>
      if i % 3 == 2 then ':' else if i % 3 == 0 then HEX[mac[i / 3] / 16] else HEX[mac[i / 3] % 16])
  }

  lemma HexDigits(v: nat)
    requires v < 16
    ensures IsHex(HEX[v]) && HexValue(HEX[v]) == v
    ensures IsHex("0123456789abcdef"[v]) && HexValue("0123456789abcdef"[v]) == v
  {}

  lemma PrintedPair(mac: seq<Octet>, n: nat)
    requires |mac| == MAC && n < MAC
    ensures Pair(Printed(mac), n) && PairValue(Printed(mac), n) == mac[n]
    ensures n < MAC - 1 ==> Colon(Printed(mac), n)
  {
    HexDigits(mac[n] / 16);
    HexDigits(mac[n] % 16);
    var s := Printed(mac);
    assert (3 * n) / 3 == n == (3 * n + 1) / 3 && (3 * n) % 3 == 0 && (3 * n + 1) % 3 == 1 && (3 * n + 2) % 3 == 2;
    assert s[3 * n] == HEX[mac[n] / 16] && s[3 * n + 1] == HEX[mac[n] % 16];
  }

  /** Reading the printed form of a MAC address gives the address back. */
  lemma ParsePrinted(mac: seq<Octet>)
    requires |mac| == MAC
    ensures IsMac(Printed(mac)) && MacOf(Printed(mac)) == mac
  {
    forall n | 0 <= n < MAC
      ensures Pair(Printed(mac), n) && PairValue(Printed(mac), n) == mac[n]
      ensures n < MAC - 1 ==> Colon(Printed(mac), n)
    {
      PrintedPair(mac, n);
    }
  }

  // --- The configuration ---------------------------------------------------------------

  datatype Conf = Conf(useStatic: bool, addr: Word32, mask: Word32, gw: Word32, hwaddr: seq<Octet>)

  /** inet_aton, which leaves its result alone when the address is invalid. */
  type Aton = seq<char> -> Option<Word32>

  function Inet(aton: Aton, arg: Option<seq<char>>, current: Word32): Word32 {
    if arg.Some? && aton(arg.value).Some? then aton(arg.value).value else current
  }

  /** What a command does. */
  function Command(aton: Aton, c: Conf, cmd: seq<char>, arg: Option<seq<char>>): Conf {
    if cmd == "dhcp" then
      if arg.None? || arg.value == "yes" then c.(useStatic := false)
      else if arg.value == "no" then c.(useStatic := true)
      else c
    else if cmd == "addr" then c.(addr := Inet(aton, arg, c.addr), useStatic := true)
    else if cmd == "mask" then c.(mask := Inet(aton, arg, c.mask))
    else if cmd == "gw" then c.(gw := Inet(aton, arg, c.gw))
    else if cmd == "hwaddr" && arg.Some? && IsMac(arg.value) then c.(hwaddr := MacOf(arg.value))
    else c
  }

  /** What a line does: its first word is the command, its second the argument. */
  function Line(aton: Aton, c: Conf, text: seq<char>): Conf {
    var words := Words(text, 0);
    if words == [] || words[0] == [] || words[0][0] == '#' then c
    else Command(aton, c, words[0], if |words| > 1 then Some(words[1]) else None)
  }

  /** The string in a buffer ends before its first NUL. */
  function BeforeNul(s: seq<char>, i: nat): (t: seq<char>)
    requires i <= |s| && NUL !in s[..i]
    ensures NUL !in t && |t| <= |s| && t == s[..|t|] && (|t| < |s| ==> s[|t|] == NUL)
    decreases |s| - i
  {
    if i == |s| || s[i] == NUL then s[..i] else BeforeNul(s, i + 1)
  }

  /** What the lines of NET.CNF do, the first n of them. */
  function File(aton: Aton, c: Conf, lines: seq<seq<char>>, n: nat): Conf
    requires n <= |lines|
  {
    if n == 0 then c else Line(aton, File(aton, c, lines, n - 1), BeforeNul(lines[n - 1], 0))
  }

  // --- The reader ------------------------------------------------------------------------

  /** A C string w at position i of the buffer. */
  ghost predicate StringAt(s: seq<char>, i: nat, w: seq<char>) {
    && i + |w| < |s| && s[i + |w|] == NUL && NUL !in w
    && forall k | 0 <= k < |w| :: s[i + k] == w[k]
  }

  /** From position from on, the buffer holds what f_gets put there: the text and its
      terminator. */
  ghost predicate Intact(s: seq<char>, text: seq<char>, from: nat) {
    && |text| < |s| && s[|text|] == NUL && NUL !in text
    && forall k | from <= k < |text| :: s[k] == text[k]
  }

  /** Reading a character of the buffer, never past the line's terminator. */
  function Peek(lbuf: array<char>, i: nat, ghost end: nat): char
    requires i <= end < lbuf.Length
    reads lbuf
  {
    lbuf[i]
  }

  method SkipSpace(lbuf: array<char>, from: nat, ghost text: seq<char>) returns (line: nat)
    requires Intact(lbuf[..], text, from) && from <= |text|
    ensures from <= line <= |text| && (line < |text| ==> !IsSpace(text[line]))
    ensures Words(text, line) == Words(text, from)
    ensures line == from ==> from == |text| || !IsSpace(text[from])
  {
    line := from;
    while IsSpace(Peek(lbuf, line, |text|))
      invariant from <= line <= |text| && Words(text, line) == Words(text, from)
      decreases |text| - line
    {
      line := line + 1;
    }
  }

  method FindEnd(lbuf: array<char>, from: nat, ghost text: seq<char>) returns (line: nat)
    requires Intact(lbuf[..], text, from) && from <= |text|
    ensures line == WordEnd(text, from)
  {
    line := from;
    while Peek(lbuf, line, |text|) != NUL && !IsSpace(Peek(lbuf, line, |text|))
      invariant from <= line <= |text| && WordEnd(text, line) == WordEnd(text, from)
      decreases |text| - line
    {
      line := line + 1;
    }
  }

  lemma WordAt(t: seq<char>, i: nat)
    requires i < |t| && !IsSpace(t[i])
    ensures var j := WordEnd(t, i);
      i < j && Words(t, i) != [] && Words(t, i)[0] == t[i..j] && Words(t, i)[1..] == Words(t, j)
  {}

  /** A word of the text whose end is overwritten is a string of its own. */
  lemma Chopped(s: seq<char>, text: seq<char>, i: nat)
    requires Intact(s, text, i) && i <= |text|
    ensures var j := WordEnd(text, i); StringAt(s[j := NUL], i, text[i..j])
  {}

  /** Only positions from from on differ. */
  ghost predicate Untouched(s: seq<char>, s': seq<char>, from: nat) {
    |s'| == |s| && forall k | 0 <= k < from && k < |s| :: s'[k] == s[k]
  }

  lemma StringStays(s: seq<char>, s': seq<char>, from: nat, i: nat, w: seq<char>)
    requires StringAt(s, i, w) && Untouched(s, s', from) && i + |w| < from
    ensures StringAt(s', i, w)
  {}

  /** The word at the cursor, if there is one, is chopped out. */
  method Chop(lbuf: array<char>, line: nat, ghost text: seq<char>) returns (word: Option<nat>, end: nat)
    requires Intact(lbuf[..], text, line) && line <= |text| && (line < |text| ==> !IsSpace(text[line]))
    modifies lbuf
    ensures Untouched(old(lbuf[..]), lbuf[..], line) && (word.None? ==> lbuf[..] == old(lbuf[..]))
    ensures if Words(text, line) == [] then word.None? else word == Some(line) && StringAt(lbuf[..], line, Words(text, line)[0])
  {
    if Peek(lbuf, line, |text|) == NUL {
      return None, line;
    }
    WordAt(text, line);
    Chopped(lbuf[..], text, line);
    end := FindEnd(lbuf, line, text);
    word := Some(line);
    lbuf[end] := NUL;
  }

  /** The scan of one line: nothing for a line without words or a comment, else where
      the command and the argument start, each chopped out as a string of its own. */
  method Scan(lbuf: array<char>, ghost text: seq<char>) returns (cmd: Option<nat>, arg: Option<nat>)
    requires Intact(lbuf[..], text, 0)
    modifies lbuf
    ensures Scanned(lbuf[..], Words(text, 0), cmd, arg)
  {
    var start := SkipSpace(lbuf, 0, text);
    if start < |text| {
      WordAt(text, start);
    }
    if Peek(lbuf, start, |text|) == NUL || Peek(lbuf, start, |text|) == '#' {
      return None, None;
    }
    cmd, arg := ScanWords(lbuf, start, text);
  }

  /** From the command on: its end is found first, but chopped only when the cursor has
      gone on to the argument. */
  method ScanWords(lbuf: array<char>, start: nat, ghost text: seq<char>) returns (cmd: Option<nat>, arg: Option<nat>)
    requires Intact(lbuf[..], text, start) && start < |text| && !IsSpace(text[start])
    modifies lbuf
    ensures cmd == Some(start) && Words(text, start) != [] && StringAt(lbuf[..], start, Words(text, start)[0])
    ensures if |Words(text, start)| > 1 then arg.Some? && StringAt(lbuf[..], arg.value, Words(text, start)[1]) else arg.None?
  {
    WordAt(text, start);
    Chopped(lbuf[..], text, start);
    cmd := Some(start);
    var cmdend := FindEnd(lbuf, start, text);
    var line := SkipSpace(lbuf, cmdend, text);
    lbuf[cmdend] := NUL;
    ghost var s := lbuf[..];
    arg, line := Chop(lbuf, line, text);
    if arg.Some? {
      StringStays(s, lbuf[..], arg.value, start, Words(text, start)[0]);
    }
  }

  /** The outcome of a scan: skipped, a command, or a command and its argument. */
  ghost predicate Scanned(s: seq<char>, words: seq<seq<char>>, cmd: Option<nat>, arg: Option<nat>) {
    if words == [] || words[0] == [] || words[0][0] == '#' then cmd.None?
    else
      && cmd.Some? && StringAt(s, cmd.value, words[0])
      && if |words| > 1 then arg.Some? && StringAt(s, arg.value, words[1]) else arg.None?
  }

  /** The string at a position, up to its terminator. */
  method TextAt(lbuf: array<char>, at: nat, ghost w: seq<char>) returns (s: seq<char>)
    requires StringAt(lbuf[..], at, w)
    ensures s == w
  {
    assert forall k | 0 <= k < |w| :: w[k] != NUL;
    var i := 0;
    s := [];
    while lbuf[at + i] != NUL
      invariant 0 <= i <= |w| && s == w[..i]
      invariant i < |w| ==> lbuf[at + i] == w[i] != NUL
      decreases |w| - i
    {
      s := s + [lbuf[at + i]];
      i := i + 1;
    }
  }

  /** parse_hex on the bits already in out: the digit, or a refusal. */
  method ParseHex(c: char) returns (ok: bool, v: nat)
    ensures ok <==> IsHex(c)
    ensures ok ==> v == HexValue(c)
    ensures v < 16
  {
    if '0' <= c <= '9' {
      return true, (c - '0') as nat;
    } else if 'A' <= c <= 'F' {
      return true, (c - 'A') as nat + 10;
    } else if 'a' <= c <= 'f' {
      return true, (c - 'a') as nat + 10;
    }
    return false, 0;
  }

  /** The hwaddr loop: the address is taken exactly if the argument is a MAC address,
      and no character past the argument's terminator is looked at. */
  method ParseMac(lbuf: array<char>, at: nat, ghost w: seq<char>) returns (ok: bool, mac: array<Octet>)
    requires StringAt(lbuf[..], at, w)
    ensures ok <==> IsMac(w)
    ensures fresh(mac) && mac.Length == MAC && (ok ==> mac[..] == MacOf(w))
  {
    mac := new Octet[MAC](i => 0);
    var n := 0;
    while true
      invariant 0 <= n < MAC && 3 * n <= |w|
      invariant forall i | 0 <= i < n :: Pair(w, i) && Colon(w, i) && mac[i] == PairValue(w, i)
      decreases MAC - n
    {
      var good, high := ParseHex(Peek(lbuf, at + 3 * n, at + |w|));
      if !good {
        assert !Pair(w, n);
        return false, mac;
      }
      var low;
      good, low := ParseHex(Peek(lbuf, at + 3 * n + 1, at + |w|));
      if !good {
        assert !Pair(w, n);
        return false, mac;
      }
      mac[n] := 16 * high + low;
      assert Pair(w, n) && mac[n] == PairValue(w, n);
      var after := Peek(lbuf, at + 3 * n + 2, at + |w|);
      assert 3 * n + 2 < |w| ==> after == w[3 * n + 2] != NUL;
      if n < MAC - 1 && after == ':' {
        assert Colon(w, n);
        n := n + 1;
      } else {
        ok := n == MAC - 1 && after == NUL;
        assert n < MAC - 1 ==> !Colon(w, n);
        return;
      }
    }
  }

  /** struct net_config; its hwaddr array is overwritten in place. */
  class Config {
    var use_static: bool
    var addr: Word32
    var mask: Word32
    var gw: Word32
    var hwaddr: array<Octet>

    ghost function Value(): Conf
      reads this, hwaddr
    {
      Conf(use_static, addr, mask, gw, hwaddr[..])
    }

    ghost predicate Valid()
      reads this
    {
      hwaddr.Length == MAC
    }

    /** sdcard_parse_inet. */
    method ParseInet(aton: Aton, arg: Option<seq<char>>, current: Word32) returns (out: Word32)
      ensures out == Inet(aton, arg, current)
    {
      out := current;
      if arg.Some? {
        var a := aton(arg.value);
        if a.Some? {
          out := a.value;
        }
      }
    }

    method Obey(aton: Aton, lbuf: array<char>, at: nat, argAt: Option<nat>, ghost w: seq<char>, ghost argw: Option<seq<char>>)
      requires Valid() && lbuf.Length > 0 && StringAt(lbuf[..], at, w)
      requires if argw.Some? then argAt.Some? && StringAt(lbuf[..], argAt.value, argw.value) else argAt.None?
      modifies this`use_static, this`addr, this`mask, this`gw, hwaddr
      ensures Value() == Command(aton, old(Value()), w, argw)
    {
      var cmd := TextAt(lbuf, at, w);
      var arg := None;
      if argAt.Some? {
        var text := TextAt(lbuf, argAt.value, argw.value);
        arg := Some(text);
      }
      if cmd == "dhcp" {
        if arg.None? || arg.value == "yes" {
          use_static := false;
        } else if arg.value == "no" {
          use_static := true;
        }
      } else if cmd == "addr" {
        addr := ParseInet(aton, arg, addr);
        use_static := true;
      } else if cmd == "mask" {
        mask := ParseInet(aton, arg, mask);
      } else if cmd == "gw" {
        gw := ParseInet(aton, arg, gw);
      } else if cmd == "hwaddr" {
        if arg.Some? && arg.value != "eeprom" {
          var ok, mac := ParseMac(lbuf, argAt.value, argw.value);
          if ok {
            forall i | 0 <= i < MAC {
              hwaddr[i] := mac[i];
            }
            assert hwaddr[..] == mac[..];
          }
        }
      }
    }

    /** One turn of the reading loop, on the buffer as f_gets filled it. */
    method ReadLine(aton: Aton, lbuf: array<char>, ghost text: seq<char>)
      requires Valid() && Intact(lbuf[..], text, 0)
      modifies this`use_static, this`addr, this`mask, this`gw, hwaddr, lbuf
      ensures Value() == Line(aton, old(Value()), text)
    {
      var cmd, arg := Scan(lbuf, text);
      ghost var words := Words(text, 0);
      if cmd.Some? {
        Obey(aton, lbuf, cmd.value, arg, words[0], if |words| > 1 then Some(words[1]) else None);
      }
    }

    /** sdcard_netconf: lines is what successive calls of f_gets deliver. */
    method ReadFile(aton: Aton, lines: seq<seq<char>>)
      requires Valid() && forall i | 0 <= i < |lines| :: |lines[i]| < LBUF
      modifies this`use_static, this`addr, this`mask, this`gw, hwaddr
      ensures Value() == File(aton, old(Value()), lines, |lines|)
    {
      var lbuf := new char[LBUF](i => NUL);
      for n := 0 to |lines|
        invariant fresh(lbuf) && Value() == File(aton, old(Value()), lines, n)
      {
        var line := lines[n];
        forall i | 0 <= i < LBUF {
          lbuf[i] := if i < |line| then line[i] else if i == |line| then NUL else lbuf[i];
        }
        ReadLine(aton, lbuf, BeforeNul(line, 0));
      }
    }
  }

  const LBUF := 64

  // --- What a file can do --------------------------------------------------------------

  /** The line sets the MAC address: hwaddr and an argument of exactly six groups. */
  predicate SetsMac(text: seq<char>) {
    var words := Words(text, 0);
    |words| > 1 && words[0] == "hwaddr" && IsMac(words[1])
  }

  /** The stored MAC address changes at those lines and no others. */
  lemma {:induction false} MacOfFile(aton: Aton, c: Conf, lines: seq<seq<char>>, n: nat)
    requires n <= |lines|
    ensures var last := LastMac(lines, n);
      File(aton, c, lines, n).hwaddr == if last.None? then c.hwaddr else last.value
  {
    if n > 0 {
      MacOfFile(aton, c, lines, n - 1);
    }
  }

  /** The address given by the last line that sets one. */
  function LastMac(lines: seq<seq<char>>, n: nat): Option<seq<Octet>>
    requires n <= |lines|
  {
    if n == 0 then None
    else if SetsMac(BeforeNul(lines[n - 1], 0)) then Some(MacOf(Words(BeforeNul(lines[n - 1], 0), 0)[1]))
    else LastMac(lines, n - 1)
  }

  // --- The other settings --------------------------------------------------------------

  /** The line gives the setting of that name a valid address. */
  predicate Gives(aton: Aton, text: seq<char>, name: seq<char>) {
    var words := Words(text, 0);
    |words| > 1 && words[0] == name && aton(words[1]).Some?
  }

  /** The address given by the last line that gives one. */
  function LastInet(aton: Aton, lines: seq<seq<char>>, n: nat, name: seq<char>): Option<Word32>
    requires n <= |lines|
  {
    if n == 0 then None
    else if Gives(aton, BeforeNul(lines[n - 1], 0), name) then aton(Words(BeforeNul(lines[n - 1], 0), 0)[1])
    else LastInet(aton, lines, n - 1, name)
  }

  function OrElse<T>(last: Option<T>, otherwise: T): T {
    if last.Some? then last.value else otherwise
  }

  /** Address, mask and gateway are those of the last line of their name that gives a valid
      address, and unchanged if there is none. */
  lemma {:induction false} InetOfFile(aton: Aton, c: Conf, lines: seq<seq<char>>, n: nat)
    requires n <= |lines|
    ensures File(aton, c, lines, n).addr == OrElse(LastInet(aton, lines, n, "addr"), c.addr)
    ensures File(aton, c, lines, n).mask == OrElse(LastInet(aton, lines, n, "mask"), c.mask)
    ensures File(aton, c, lines, n).gw == OrElse(LastInet(aton, lines, n, "gw"), c.gw)
  {
    if n > 0 {
      InetOfFile(aton, c, lines, n - 1);
      InetOfLine(aton, File(aton, c, lines, n - 1), BeforeNul(lines[n - 1], 0));
    }
  }

  lemma InetOfLine(aton: Aton, c: Conf, text: seq<char>)
    ensures Line(aton, c, text).addr == if Gives(aton, text, "addr") then aton(Words(text, 0)[1]).value else c.addr
    ensures Line(aton, c, text).mask == if Gives(aton, text, "mask") then aton(Words(text, 0)[1]).value else c.mask
    ensures Line(aton, c, text).gw == if Gives(aton, text, "gw") then aton(Words(text, 0)[1]).value else c.gw
  {}

  /** What a line says about a static address: addr always and dhcp no ask for one, dhcp
      alone and dhcp yes do not, and no other line says anything. */
  function Static(text: seq<char>): Option<bool> {
    var words := Words(text, 0);
    if words == [] then None
    else if words[0] == "addr" then Some(true)
    else if words[0] == "dhcp" && |words| > 1 && words[1] == "no" then Some(true)
    else if words[0] == "dhcp" && (|words| == 1 || words[1] == "yes") then Some(false)
    else None
  }

  function LastStatic(lines: seq<seq<char>>, n: nat): Option<bool>
    requires n <= |lines|
  {
    if n == 0 then None
    else if Static(BeforeNul(lines[n - 1], 0)).Some? then Static(BeforeNul(lines[n - 1], 0))
    else LastStatic(lines, n - 1)
  }

  /** Whether the address is static is decided by the last line that says so. */
  lemma {:induction false} StaticOfFile(aton: Aton, c: Conf, lines: seq<seq<char>>, n: nat)
    requires n <= |lines|
    ensures File(aton, c, lines, n).useStatic == OrElse(LastStatic(lines, n), c.useStatic)
  {
    if n > 0 {
      StaticOfFile(aton, c, lines, n - 1);
      StaticOfLine(aton, File(aton, c, lines, n - 1), BeforeNul(lines[n - 1], 0));
    }
  }

  lemma StaticOfLine(aton: Aton, c: Conf, text: seq<char>)
    ensures Line(aton, c, text).useStatic == OrElse(Static(text), c.useStatic)
  {}

  /** A line whose first character other than whitespace is # changes nothing, and neither
      does one of whitespace alone. */
  lemma {:induction false} CommentsChangeNothing(aton: Aton, c: Conf, text: seq<char>, i: nat)
    requires i <= |text| && forall k | 0 <= k < i :: text[k] in [' ', '\n', '\r', '\t', '\U{b}', '\U{c}']
    requires i < |text| ==> text[i] == '#'
    ensures Line(aton, c, text) == c
  {
    SkipsSpace(text, 0, i);
    if i < |text| {
      WordAt(text, i);
    }
  }

  lemma {:induction false} SkipsSpace(text: seq<char>, from: nat, i: nat)
    requires from <= i <= |text| && forall k | from <= k < i :: IsSpace(text[k])
    ensures Words(text, from) == Words(text, i)
    decreases i - from
  {
    if from < i {
      SkipsSpace(text, from + 1, i);
    }
  }
}
