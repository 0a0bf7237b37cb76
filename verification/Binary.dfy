/** Binary digits, most significant first, and the numbers they stand for. */
module Binary {
  function Pow2(n: nat): nat {
    if n == 0 then 1 else 2 * Pow2(n - 1)
  }

  function Value(bits: seq<bool>): nat {
    if bits == [] then 0
    else 2 * Value(bits[..|bits| - 1]) + if bits[|bits| - 1] then 1 else 0
  }

  /** The n low digits of x. */
  function Digits(x: nat, n: nat): (d: seq<bool>)
    ensures |d| == n
  {
    if n == 0 then [] else Digits(x / 2, n - 1) + [x % 2 == 1]
  }

  function Zeros(n: nat): seq<bool> {
    seq(n, i => false)
  }

  lemma {:induction false} PositivePower(n: nat)
    ensures Pow2(n) > 0
  {
    if n > 0 {
      PositivePower(n - 1);
    }
  }

  lemma {:induction false} PowerAdds(a: nat, b: nat)
    ensures Pow2(a + b) == Pow2(a) * Pow2(b)
  {
    if a > 0 {
      PowerAdds(a - 1, b);
      Twice(Pow2(b), Pow2(a - 1));
    }
  }

  lemma Powers()
    ensures Pow2(31) == 0x8000_0000 && Pow2(32) == 0x1_0000_0000
  {
    assert Pow2(1) == 2 && Pow2(2) == 4;
    PowerAdds(2, 2);
    PowerAdds(4, 4);
    PowerAdds(8, 8);
    PowerAdds(16, 16);
  }

  lemma {:induction false} ValueFits(b: seq<bool>)
    ensures Value(b) < Pow2(|b|)
  {
    if b != [] {
      ValueFits(b[..|b| - 1]);
    }
  }

  /** A number that fits n digits is the value of its n digits. */
  lemma {:induction false} DigitsValue(x: nat, n: nat)
    requires x < Pow2(n)
    ensures Value(Digits(x, n)) == x
  {
    if n > 0 {
      DigitsValue(x / 2, n - 1);
      assert Digits(x, n)[..n - 1] == Digits(x / 2, n - 1);
    }
  }

  lemma Twice(x: nat, p: nat)
    ensures x * (2 * p) == 2 * (x * p)
  {}

  lemma {:induction false} ValueAppend(a: seq<bool>, b: seq<bool>)
    ensures Value(a + b) == Value(a) * Pow2(|b|) + Value(b)
  {
    if b == [] {
      assert a + b == a;
    } else {
      var b', ab := b[..|b| - 1], a + b;
      ValueAppend(a, b');
      assert ab[..|ab| - 1] == a + b' && ab[|ab| - 1] == b[|b| - 1];
      Twice(Value(a), Pow2(|b'|));
    }
  }

  lemma {:induction false} ValueZeros(n: nat)
    ensures Value(Zeros(n)) == 0
  {
    if n > 0 {
      ValueZeros(n - 1);
      assert Zeros(n)[..n - 1] == Zeros(n - 1);
    }
  }

  lemma {:induction false} ZeroValue(bits: seq<bool>)
    ensures Value(bits) == 0 <==> forall i | 0 <= i < |bits| :: !bits[i]
  {
    if bits != [] {
      ZeroValue(bits[..|bits| - 1]);
    }
  }
}
