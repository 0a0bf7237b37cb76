/** The wire format of the PSC message protocol: 'P' 'S', message id, body length,
    body; and what a reader of the byte stream makes of it. */
module PscFrame {
  import opened Octets

  datatype Msg = Msg(id: Word16, body: seq<Octet>)

  const HEADER := 8
  const LETTER_P: Octet := 80
  const LETTER_S: Octet := 83

  function Header(id: Word16, len: Word32): (h: seq<Octet>)
    ensures |h| == HEADER
  {
    [LETTER_P, LETTER_S] + Be16(id) + Be32(len)
  }

  /** Bodies whose length fits the header. */
  ghost predicate Sendable(m: Msg) {
    |m.body| < 0x1_0000_0000
  }

  /** What psc_sendmsg puts on the wire. */
  function Frame(m: Msg): seq<Octet>
    requires Sendable(m)
  {
    Header(m.id, |m.body|) + m.body
  }

  /** What psc_sendmsgsingle puts on the wire: the register number leads the body,
      and the length is a 32-bit sum. */
  function SingleFrame(id: Word16, reg: Word32, body: seq<Octet>): seq<Octet>
    requires |body| < 0x1_0000_0000
  {
    Header(id, (|body| + 4) % 0x1_0000_0000) + (Be32(reg) + body)
  }

  datatype Got = Lost | Got(m: Msg, rest: seq<Octet>)

  /** psc_recvmsg on everything that will ever arrive, into a buffer of max bytes. */
  function Receive(input: seq<Octet>, max: nat): Got {
    if |input| < HEADER || input[0] != LETTER_P || input[1] != LETTER_S then Lost
    else
      var len := FromBe32(input[4..8]);
      if |input| < HEADER + len then Lost
      else Got(Msg(FromBe16(input[2..4]), input[HEADER..HEADER + Min(len, max)]), input[HEADER + len..])
  }

  /** The receive loop of handle_client: messages delivered until the first error. */
  function Deliver(input: seq<Octet>, max: nat): seq<Msg>
    decreases |input|
  {
    match Receive(input, max)
    case Lost => []
    case Got(m, rest) => [m] + Deliver(rest, max)
  }

  function Cut(m: Msg, max: nat): Msg {
    Msg(m.id, m.body[..Min(|m.body|, max)])
  }

  lemma HeaderFields(id: Word16, len: Word32, rest: seq<Octet>)
    ensures var s := Header(id, len) + rest;
            && s[0] == LETTER_P && s[1] == LETTER_S
            && FromBe16(s[2..4]) == id && FromBe32(s[4..8]) == len
            && s[HEADER..] == rest
  {
    var s := Header(id, len) + rest;
    assert s[2..4] == Be16(id);
    assert s[4..8] == Be32(len);
    Be16RoundTrip(id);
    Be32RoundTrip(len);
  }

  /** A whole frame is received, cut to the buffer, and the stream is left after it. */
  lemma ReceiveFrame(m: Msg, tail: seq<Octet>, max: nat)
    requires Sendable(m)
    ensures Receive(Frame(m) + tail, max) == Got(Cut(m, max), tail)
  {
    var s := Frame(m) + tail;
    assert s == Header(m.id, |m.body|) + (m.body + tail);
    HeaderFields(m.id, |m.body|, m.body + tail);
    assert s[HEADER..HEADER + Min(|m.body|, max)] == m.body[..Min(|m.body|, max)];
    assert s[HEADER + |m.body|..] == tail;
  }

  /** A frame that is cut short is not delivered. */
  lemma ReceivePartial(m: Msg, n: nat, max: nat)
    requires Sendable(m) && n < |Frame(m)|
    ensures Receive(Frame(m)[..n], max) == Lost
  {
    var s := Frame(m)[..n];
    if |s| >= HEADER {
      HeaderFields(m.id, |m.body|, m.body);
      assert s[4..8] == Frame(m)[4..8];
    }
  }

  ghost predicate AllSendable(ms: seq<Msg>) {
    forall i | 0 <= i < |ms| :: Sendable(ms[i])
  }

  function Frames(ms: seq<Msg>): seq<Octet>
    requires AllSendable(ms)
  {
    if ms == [] then [] else Frame(ms[0]) + Frames(ms[1..])
  }

  function CutAll(ms: seq<Msg>, max: nat): (r: seq<Msg>)
    ensures |r| == |ms| && forall i | 0 <= i < |ms| :: r[i] == Cut(ms[i], max)
  {
    seq(|ms|, i requires 0 <= i < |ms| => Cut(ms[i], max))
  }

  /** How many whole frames n bytes hold. */
  function Complete(ms: seq<Msg>, n: nat): (k: nat)
    requires AllSendable(ms)
    ensures k <= |ms|
    decreases |ms|
  {
    if ms == [] || n < |Frame(ms[0])| then 0 else 1 + Complete(ms[1..], n - |Frame(ms[0])|)
  }

  /** Complete is what it says: the first k frames fit into n bytes and the next does not. */
  lemma {:induction false} CompleteIsMaximal(ms: seq<Msg>, n: nat)
    requires AllSendable(ms)
    ensures var k := Complete(ms, n);
            && |Frames(ms[..k])| <= n
            && (k < |ms| ==> n < |Frames(ms[..k + 1])|)
    decreases |ms|
  {
    if ms != [] && |Frame(ms[0])| <= n {
      var k := Complete(ms[1..], n - |Frame(ms[0])|);
      CompleteIsMaximal(ms[1..], n - |Frame(ms[0])|);
      assert ms[..k + 1][1..] == ms[1..][..k];
      if k + 1 < |ms| {
        assert ms[..k + 2][1..] == ms[1..][..k + 1];
      }
    } else if ms != [] {
      assert ms[..1][1..] == [];
    }
  }

  lemma DeliverFrame(m: Msg, tail: seq<Octet>, max: nat)
    requires Sendable(m)
    ensures Deliver(Frame(m) + tail, max) == [Cut(m, max)] + Deliver(tail, max)
  {
    ReceiveFrame(m, tail, max);
  }

  lemma DeliverPartial(m: Msg, n: nat, max: nat)
    requires Sendable(m) && n < |Frame(m)|
    ensures Deliver(Frame(m)[..n], max) == []
  {
    ReceivePartial(m, n, max);
  }

  lemma PrefixSplits(a: seq<Octet>, b: seq<Octet>, n: nat)
    requires n <= |a| + |b|
    ensures (a + b)[..n] == if n < |a| then a[..n] else a + b[..n - |a|]
  {}

  lemma CutAllCons(ms: seq<Msg>, k: nat, max: nat)
    requires 1 <= k <= |ms|
    ensures CutAll(ms[..k], max) == [Cut(ms[0], max)] + CutAll(ms[1..][..k - 1], max)
  {}

  /** For every list of messages and every point at which the stream ends, exactly
      the messages whose frames arrived whole are delivered, in order, each body cut
      to the receive buffer. With n the full length this is the round trip. */
  lemma {:induction false} DeliversWholeFrames(ms: seq<Msg>, n: nat, max: nat)
    requires AllSendable(ms) && n <= |Frames(ms)|
    ensures Deliver(Frames(ms)[..n], max) == CutAll(ms[..Complete(ms, n)], max)
    decreases |ms|
  {
    if ms != [] {
      PrefixSplits(Frame(ms[0]), Frames(ms[1..]), n);
      if n < |Frame(ms[0])| {
        DeliverPartial(ms[0], n, max);
      } else {
        var n' := n - |Frame(ms[0])|;
        DeliverFrame(ms[0], Frames(ms[1..])[..n'], max);
        DeliversWholeFrames(ms[1..], n', max);
        CutAllCons(ms, Complete(ms, n), max);
      }
    }
  }

  lemma {:induction false} CompleteAll(ms: seq<Msg>)
    requires AllSendable(ms)
    ensures Complete(ms, |Frames(ms)|) == |ms|
    decreases |ms|
  {
    if ms != [] {
      CompleteAll(ms[1..]);
    }
  }

  /** Any list of messages, sent and received whole, is delivered as it was sent. */
  lemma RoundTrip(ms: seq<Msg>, max: nat)
    requires AllSendable(ms)
    ensures Deliver(Frames(ms), max) == CutAll(ms, max)
  {
    CompleteAll(ms);
    DeliversWholeFrames(ms, |Frames(ms)|, max);
    assert Frames(ms)[..|Frames(ms)|] == Frames(ms);
    assert ms[..|ms|] == ms;
  }

  lemma SingleFits(id: Word16, reg: Word32, body: seq<Octet>, tail: seq<Octet>, max: nat)
    requires |body| + 4 < 0x1_0000_0000
    ensures SingleFrame(id, reg, body) == Frame(Msg(id, Be32(reg) + body))
    ensures Receive(SingleFrame(id, reg, body) + tail, max) == Got(Cut(Msg(id, Be32(reg) + body), max), tail)
  {
    var m := Msg(id, Be32(reg) + body);
    assert SingleFrame(id, reg, body) == Frame(m);
    ReceiveFrame(m, tail, max);
  }

  /** When the sum wraps, the receiver takes a few bytes for the whole message. */
  lemma SingleWraps(id: Word16, reg: Word32, body: seq<Octet>, tail: seq<Octet>, max: nat)
    requires |body| < 0x1_0000_0000 <= |body| + 4
    ensures Receive(SingleFrame(id, reg, body) + tail, max).Got?
    ensures |Receive(SingleFrame(id, reg, body) + tail, max).rest| == 0x1_0000_0000 + |tail|
  {
    var payload, len := Be32(reg) + body, |body| + 4 - 0x1_0000_0000;
    assert SingleFrame(id, reg, body) + tail == Header(id, len) + (payload + tail);
    HeaderFields(id, len, payload + tail);
  }

  /** A single-register message is received as the register number followed by the
      body, with the stream left at the next header, exactly when the length sum
      does not wrap. */
  lemma SingleRoundTripIff(id: Word16, reg: Word32, body: seq<Octet>, tail: seq<Octet>, max: nat)
    requires |body| < 0x1_0000_0000
    ensures Receive(SingleFrame(id, reg, body) + tail, max) == Got(Cut(Msg(id, Be32(reg) + body), max), tail)
            <==> |body| + 4 < 0x1_0000_0000
  {
    if |body| + 4 < 0x1_0000_0000 {
      SingleFits(id, reg, body, tail, max);
    } else {
      SingleWraps(id, reg, body, tail, max);
    }
  }

  /** A frame byte by byte: the letters P and S, then id and length, high bytes first. */
  lemma FrameBytes(m: Msg)
    requires Sendable(m)
    ensures var n := |m.body|;
      Frame(m) == [0x50, 0x53, m.id / 0x100, m.id % 0x100,
                   n / 0x100_0000, n / 0x1_0000 % 0x100, n / 0x100 % 0x100, n % 0x100] + m.body
  {
    Be32Bytes(|m.body|);
    HeaderBytes(m.id, |m.body|);
  }

  lemma Be32Bytes(n: Word32)
    ensures Be32(n) == [n / 0x100_0000, n / 0x1_0000 % 0x100, n / 0x100 % 0x100, n % 0x100]
  {
    HighByte(n);
    MiddleByte(n);
    LowByte(n);
  }

  lemma HighByte(n: Word32)
    ensures n / 0x1_0000 / 0x100 == n / 0x100_0000
  {}

  lemma MiddleByte(n: Word32)
    ensures n % 0x1_0000 / 0x100 == n / 0x100 % 0x100
  {}

  lemma LowByte(n: Word32)
    ensures n % 0x1_0000 % 0x100 == n % 0x100
  {}

  lemma HeaderBytes(id: Word16, n: Word32)
    ensures Header(id, n) == [0x50, 0x53, id / 0x100, id % 0x100] + Be32(n)
  {}
}
