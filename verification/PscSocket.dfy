/** pscmsg.c over a stream socket: the send and receive loops, for every way the
    stream is broken into pieces. */
module PscSocket {
  import opened Octets
  import opened PscFrame

  const SKIP := 128

  /** input is every byte that will still arrive; once it is used up each receive
      fails. output is what has been written. */
  class Socket {
    var input: seq<Octet>
    var output: seq<Octet>

    constructor (arriving: seq<Octet>)
      ensures input == arriving && output == []
    {
      input, output := arriving, [];
    }

    /** recv(): some of the bytes asked for, or failure. */
    method Recv(want: nat) returns (ret: int, got: seq<Octet>)
      requires want > 0
      modifies this`input
      ensures input == [] || ret > 0
      ensures ret > 0 ==> ret <= want && ret == |got| && old(input) == got + input
      ensures ret <= 0 ==> old(input) == [] == input
    {
      if input == [] {
        return -1, [];
      }
      var n :| 1 <= n <= want && n <= |input|;
      ret, got := n, input[..n];
      input := input[n..];
    }

    /** send(): some of the bytes given, or failure at any time. */
    method Send(buf: seq<Octet>, healthy: bool) returns (ret: int)
      requires buf != []
      modifies this`output
      ensures ret > 0 ==> ret <= |buf| && output == old(output) + buf[..ret]
      ensures ret <= 0 ==> output == old(output)
    {
      if !healthy {
        return 0;
      }
      var n :| 1 <= n <= |buf|;
      output := output + buf[..n];
      ret := n;
    }

    /** psc_sendall: everything is written, or a proper prefix and failure. */
    method SendAll(buf: seq<Octet>) returns (ok: bool)
      modifies this`output
      ensures Wrote(old(output), output, buf, ok)
    {
      var left := buf;
      assert output == old(output) + buf[..0];
      while left != []
        invariant |left| <= |buf| && left == buf[|buf| - |left|..]
        invariant output == old(output) + buf[..|buf| - |left|]
        decreases |left|
      {
        var healthy: bool := *;
        ghost var done := |buf| - |left|;
        var ret := Send(left, healthy);
        if ret <= 0 {
          assert Wrote(old(output), output, buf, false);
          return false;
        }
        assert buf[..done] + left[..ret] == buf[..done + ret];
        left := left[ret..];
      }
      assert buf[..|buf|] == buf;
      ok := true;
    }

    /** psc_sendmsg. */
    method SendMsg(m: Msg) returns (ok: bool)
      requires Sendable(m)
      modifies this`output
      ensures Wrote(old(output), output, Frame(m), ok)
    {
      ok := SendAll(Header(m.id, |m.body|));
      if !ok {
        WroteThen(old(output), output, output, Header(m.id, |m.body|), m.body, false, false);
        return;
      }
      ghost var mid := output;
      ok := SendAll(m.body);
      WroteThen(old(output), mid, output, Header(m.id, |m.body|), m.body, true, ok);
    }

    /** psc_sendmsgsingle. */
    method SendMsgSingle(id: Word16, reg: Word32, body: seq<Octet>) returns (ok: bool)
      requires |body| < 0x1_0000_0000
      modifies this`output
      ensures Wrote(old(output), output, SingleFrame(id, reg, body), ok)
    {
      var head := Header(id, (|body| + 4) % 0x1_0000_0000);
      ok := SendAll(head);
      if !ok {
        WroteThen(old(output), output, output, head, Be32(reg) + body, false, false);
        return;
      }
      ghost var one := output;
      ok := SendAll(Be32(reg));
      if !ok {
        WroteThen(one, output, output, Be32(reg), body, false, false);
        WroteThen(old(output), one, output, head, Be32(reg) + body, true, false);
        return;
      }
      ghost var two := output;
      ok := SendAll(body);
      WroteThen(one, two, output, Be32(reg), body, true, ok);
      WroteThen(old(output), one, output, head, Be32(reg) + body, true, ok);
    }

    /** psc_recvall into buf: exactly len bytes, or all there are and failure. A
        length beyond the buffer is harmless only when nothing more arrives. */
    method RecvAll(buf: array<Octet>, len: nat) returns (ok: bool)
      requires len <= buf.Length || input == []
      modifies this`input, buf
      ensures ok <==> len <= |old(input)|
      ensures ok ==> len <= buf.Length && old(input) == buf[..len] + input
      ensures !ok ==> input == []
    {
      var done := 0;
      while done < len
        invariant 0 <= done <= len && (done <= buf.Length)
        invariant len <= buf.Length || input == []
        invariant old(input) == buf[..done] + input
        decreases len - done
      {
        var ret, got := Recv(len - done);
        if ret <= 0 {
          return false;
        }
        Store(buf, done, got);
        assert buf[..done + ret] == buf[..done] + got;
        done := done + ret;
      }
      ok := true;
    }

    /** psc_recvskip: len bytes are read in pieces of 128 and thrown away. */
    method RecvSkip(len: nat) returns (ok: bool)
      requires len > 0
      modifies this`input
      ensures ok <==> len <= |old(input)|
      ensures ok ==> input == old(input)[len..]
    {
      var scratch := new Octet[SKIP];
      var left, failed := len, false;
      while left > SKIP && !failed
        invariant 0 < left <= len
        invariant !failed ==> |old(input)| >= len - left && input == old(input)[len - left..]
        invariant failed ==> |old(input)| < len && input == []
        decreases left, !failed
      {
        ghost var before := input;
        var got := RecvAll(scratch, SKIP);
        if got {
          assert input == before[SKIP..];
          left := left - SKIP;
        } else {
          failed := true;
        }
      }
      ghost var before := input;
      ok := RecvAll(scratch, left);
      if ok {
        assert input == before[left..];
      }
    }

    /** psc_recvhead. */
    method RecvHead() returns (ok: bool, id: Word16, len: Word32)
      modifies this`input
      ensures ok <==> |old(input)| >= HEADER && old(input)[0] == LETTER_P && old(input)[1] == LETTER_S
      ensures ok ==> id == FromBe16(old(input)[2..4]) && len == FromBe32(old(input)[4..8])
      ensures ok ==> input == old(input)[HEADER..]
    {
      var buf := new Octet[HEADER];
      ok := RecvAll(buf, HEADER);
      if !ok {
        return false, 0, 0;
      }
      assert buf[..HEADER] == buf[..];
      if buf[0] != LETTER_P || buf[1] != LETTER_S {
        return false, 0, 0;
      }
      id, len := FromBe16(buf[2..4]), FromBe32(buf[4..8]);
      assert old(input)[2..4] == buf[2..4] && old(input)[4..8] == buf[4..8];
    }

    /** psc_recvmsg: the message is received into buf, cut to its size. */
    method RecvMsg(buf: array<Octet>) returns (ok: bool, id: Word16, len: nat)
      modifies this`input, buf
      ensures var got := Receive(old(input), buf.Length);
              && (ok <==> got.Got?)
              && (ok ==> len <= buf.Length && got.m == Msg(id, buf[..len]) && got.rest == input)
    {
      ghost var all := input;
      var mlen: Word32;
      ok, id, mlen := RecvHead();
      len := 0;
      if !ok {
        return;
      }
      len := Min(mlen, buf.Length);
      ok := RecvAll(buf, len);
      if !ok {
        return;
      }
      assert all[HEADER..HEADER + len] == buf[..len];
      assert input == all[HEADER + len..];
      if len < mlen {
        ok := RecvSkip(mlen - len);
        assert ok ==> input == all[HEADER + mlen..];
      }
    }

    /** The receive loop of handle_client: every message goes to the recv callback. */
    method HandleMessages(rxbuf: array<Octet>) returns (delivered: seq<Msg>)
      modifies this`input, rxbuf
      ensures delivered == Deliver(old(input), rxbuf.Length)
    {
      delivered := [];
      while true
        invariant delivered + Deliver(input, rxbuf.Length) == Deliver(old(input), rxbuf.Length)
        decreases |input|
      {
        ghost var before := input;
        var ok, id, len := RecvMsg(rxbuf);
        if !ok {
          break;
        }
        assert Deliver(before, rxbuf.Length) == [Msg(id, rxbuf[..len])] + Deliver(input, rxbuf.Length);
        delivered := delivered + [Msg(id, rxbuf[..len])];
      }
    }
  }

  /** The copy that recv makes into the caller's buffer. */
  method Store(buf: array<Octet>, at: nat, bytes: seq<Octet>)
    requires at + |bytes| <= buf.Length
    modifies buf
    ensures buf[at..at + |bytes|] == bytes
    ensures buf[..at] == old(buf[..at]) && buf[at + |bytes|..] == old(buf[at + |bytes|..])
  {
    forall i | 0 <= i < |bytes| {
      buf[at + i] := bytes[i];
    }
  }

  /** after is before plus buf if ok, and otherwise plus a proper prefix of buf. */
  ghost predicate Wrote(before: seq<Octet>, after: seq<Octet>, buf: seq<Octet>, ok: bool) {
    var n := |after| - |before|;
    && 0 <= n <= |buf|
    && after == before + buf[..n]
    && (ok <==> n == |buf|)
  }

  lemma WroteThen(before: seq<Octet>, mid: seq<Octet>, after: seq<Octet>,
                  a: seq<Octet>, b: seq<Octet>, first: bool, second: bool)
    requires Wrote(before, mid, a, first)
    requires if first then Wrote(mid, after, b, second) else after == mid && !second
    ensures Wrote(before, after, a + b, second)
  {
    var n := |after| - |before|;
    if first {
      assert a[..|a|] == a;
      assert (a + b)[..n] == a + b[..n - |a|];
    } else {
      assert (a + b)[..n] == a[..n];
    }
  }

  // --- Skipping when receive errors are temporary --------------------------------------

  /** What psc_recvall takes from a stream that gives arrivals[0] bytes, then an error
      (a receive timeout, say), then arrivals[1] bytes, and so on. */
  function Takes(arrivals: seq<nat>, len: nat): nat {
    if arrivals == [] then 0 else Min(arrivals[0], len)
  }

  /** The stream afterwards; a receive that falls short has met the error. */
  function Leaves(arrivals: seq<nat>, len: nat): seq<nat> {
    if len == 0 || arrivals == [] then arrivals
    else if arrivals[0] >= len then arrivals[0 := arrivals[0] - len]
    else arrivals[1..]
  }

  /** psc_recvskip over such a stream: how many bytes its last psc_recvall puts into its
      buffer of 128. The first error ends the loop, and the whole rest of the length is
      asked for at once: it fits exactly if at most 128 were left at that error, or at
      most 128 come before the next. */
  method SkipOverErrors(arrivals: seq<nat>, len: nat) returns (written: nat)
    requires arrivals != []
    ensures written <= 128 <==> len <= 128 * (arrivals[0] / 128 + 1) || |arrivals| == 1 || arrivals[1] <= 128
  {
    var left, stream := len, arrivals;
    while left > SKIP && Takes(stream, SKIP) == SKIP
      invariant stream != [] && stream[1..] == arrivals[1..] && stream[0] == arrivals[0] - (len - left)
      invariant 0 <= left <= len && (len - left) % SKIP == 0
      invariant left < len ==> left > 0
      decreases left
    {
      stream := Leaves(stream, SKIP);
      left := left - SKIP;
    }
    if left > SKIP {
      stream := Leaves(stream, SKIP);
    }
    written := Takes(stream, left);
  }

  /** The failing input: nothing arrives before the first error, and all 129 bytes to skip
      before the next. */
  method SkipFails() returns (written: nat)
    ensures written > 128
  {
    written := SkipOverErrors([0, 129], 129);
  }

  /** Takes is what the receive loop takes from a socket on which so much arrives. */
  method ReceiveSome(sock: Socket, buf: array<Octet>, len: nat) returns (ok: bool)
    requires len <= buf.Length
    modifies sock`input, buf
    ensures |old(sock.input)| - |sock.input| == Takes([|old(sock.input)|], len)
    ensures ok <==> Takes([|old(sock.input)|], len) == len
  {
    ok := sock.RecvAll(buf, len);
  }
}
