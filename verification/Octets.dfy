/** Machine words and their network byte order, shared by every protocol model. */
module Octets {

  type Octet = n: nat | n < 0x100
  type Word16 = n: nat | n < 0x1_0000
  type Word32 = n: nat | n < 0x1_0000_0000

  /** 2^32. */
  const WORD := 0x1_0000_0000

  datatype Option<T> = None | Some(value: T)

  /** Subtraction of two u16_t operands, truncated to u16_t. */
  function Sub16(a: Word16, b: Word16): Word16 {
    if a >= b then a - b else a + 0x1_0000 - b
  }

  function Be16(n: Word16): seq<Octet> {
    [n / 0x100, n % 0x100]
  }

  function Be32(n: Word32): seq<Octet> {
    Be16(n / 0x1_0000) + Be16(n % 0x1_0000)
  }

  function FromBe16(s: seq<Octet>): Word16
    requires |s| == 2
  {
    var high: int := s[0];
    0x100 * high + s[1]
  }

  function FromBe32(s: seq<Octet>): Word32
    requires |s| == 4
  {
    var high: int := FromBe16(s[..2]);
    0x1_0000 * high + FromBe16(s[2..])
  }

  lemma Be16RoundTrip(n: Word16)
    ensures FromBe16(Be16(n)) == n
  {}

  lemma Be32RoundTrip(n: Word32)
    ensures FromBe32(Be32(n)) == n
  {
    Be16RoundTrip(n / 0x1_0000);
    Be16RoundTrip(n % 0x1_0000);
    assert Be32(n)[..2] == Be16(n / 0x1_0000);
    assert Be32(n)[2..] == Be16(n % 0x1_0000);
  }

  function Flatten<T>(parts: seq<seq<T>>): seq<T> {
    if parts == [] then [] else parts[0] + Flatten(parts[1..])
  }

  lemma {:induction false} FlattenAppend<T>(a: seq<seq<T>>, b: seq<seq<T>>)
    ensures Flatten(a + b) == Flatten(a) + Flatten(b)
  {
    if a == [] {
      assert a + b == b;
    } else {
      assert (a + b)[1..] == a[1..] + b;
      FlattenAppend(a[1..], b);
    }
  }

  /** The n elements of s that start at from. */
  function Slice<T>(s: seq<T>, from: nat, n: nat): (r: seq<T>)
    requires from + n <= |s|
    ensures |r| == n
    ensures forall i | 0 <= i < n :: r[i] == s[from + i]
  {
    seq(n, i requires 0 <= i < n => s[from + i])
  }

  function Min(a: int, b: int): int {
    if a <= b then a else b
  }

  function Max(a: int, b: int): int {
    if a <= b then b else a
  }
}
