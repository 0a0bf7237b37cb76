/** The datagrams of the server byte by byte, as RFC 1350 has them. */
module TftpWire {
  import opened Octets
  import opened TftpFile
  import opened TftpProtocol
  import opened TftpRead
  import opened TftpWrite
  import TftpRequest

  /** What is put into the buffer of a reply; an error ends with its text. */
  function ReplyBytes(r: Reply, text: seq<Octet>): seq<Octet> {
    match r
    case Data(block) => Be16(DATA) + Be16(block.number) + block.payload
    case Ack(number) => Be16(ACK) + Be16(number)
    case Error(code) => Be16(5) + Be16(if code < 0x1_0000 then code else 0) + text + [0]
  }

  /** Opcode and number, high bytes first, then the payload: sections 2 to 5 of RFC 1350. */
  lemma ServerBytes(b: Block, n: Word16, text: seq<Octet>)
    ensures ReplyBytes(Data(b), text) == [0, 3, b.number / 0x100, b.number % 0x100] + b.payload
    ensures ReplyBytes(Ack(n), text) == [0, 4, n / 0x100, n % 0x100]
    ensures ReplyBytes(Error(n), text) == [0, 5, n / 0x100, n % 0x100] + text + [0]
  {}

  /** The packets the server takes for those of a writing client: a write request in octet
      mode, then data blocks. */
  lemma ClientBytes(c: Client, n: nat)
    ensures PacketBytes(c, 0) == [0, 2] + c.name + [0] + [111, 99, 116, 101, 116] + [0]
    ensures n >= 1 ==> PacketBytes(c, n) == [0, 3, n % 0x1_0000 / 0x100, n % 0x100] + BlockOf(c.content, n)
  {
    assert OCTET[..5] == [111, 99, 116, 101, 116];
    assert n % 0x1_0000 % 0x100 == n % 0x100;
  }

  /** Block k is bytes 512(k-1) to 512k of the file, and there are length / 512 + 1 blocks. */
  lemma BlockBytes(content: seq<Octet>, k: nat)
    requires 1 <= k && 512 * (k - 1) <= |content|
    ensures BlockOf(content, k) == content[512 * (k - 1)..Min(512 * k, |content|)]
    ensures BlockCount(content) == |content| / 512 + 1
  {}

  // --- Which error is answered ----------------------------------------------------------

  /** The error codes of RFC 1350 by what is wrong: 1 file not found, 2 access violation,
      4 illegal operation, 5 unknown transfer id; None if nothing is. */
  ghost function ErrorFor(w: World, p: Packet, addr: Addr, port: Port, l: Luck): Option<nat>
    requires Received(p)
  {
    var opcode, number := SBuf(p, 0), SBuf(p, 1);
    var parsed := TftpRequest.Parse(Bytes(p));
    if Foreign(w.st, addr, port) then Some(2)
    else if opcode == 1 || opcode == 2 then
      if w.st.handle || !parsed.Request? then Some(2)
      else if parsed.mode != [111, 99, 116, 101, 116, 0] || l.found.None? then Some(1)
      else if opcode == 1 && l.dataAlloc && !l.readOk then Some(2)
      else None
    else if opcode == 3 then
      if !w.st.handle || !w.st.modeWrite then Some(2)
      else if number == w.st.blknum then if Fits(p, l) then None else Some(2)
      else if (number + 1) % 0x1_0000 == w.st.blknum then None
      else Some(5)
    else if opcode == 4 then
      if !w.st.handle || w.st.modeWrite then Some(2)
      else if number != w.st.blknum then Some(5)
      else if w.st.lastData.Some? && |w.st.lastData.value.payload| != 512 then None
      else if l.dataAlloc && !l.readOk then Some(2)
      else None
    else Some(4)
  }

  /** The packet is answered by that error, if there is a buffer for it, or by none. */
  ghost predicate AnswersError(w: World, addr: Addr, port: Port, code: Option<nat>, l: Luck) {
    if code.Some? then w.out.sent == if l.sendAlloc then One(Datagram(addr, port, Error(code.value))) else Nothing
    else !(w.out.sent.One? && w.out.sent.dg.reply.Error?)
  }

  lemma RequestErrors(w: World, parsed: TftpRequest.Parsed, write: bool, addr: Addr, port: Port, l: Luck)
    requires w.out.sent.Nothing?
    ensures AnswersError(AnswerRequest(w, parsed, write, addr, port, l), addr, port,
              if w.st.handle || !parsed.Request? then Some(2)
              else if parsed.mode != [111, 99, 116, 101, 116, 0] || l.found.None? then Some(1)
              else if !write && l.dataAlloc && !l.readOk then Some(2)
              else None, l)
  {}

  lemma DispatchErrors(w: World, p: Packet, addr: Addr, port: Port, l: Luck)
    requires Received(p) && w.out.sent.Nothing? && !Foreign(w.st, addr, port)
    requires w.st.handle ==> w.st.addr == addr && w.st.port == port
    ensures AnswersError(Dispatch(w, p, addr, port, l), addr, port, ErrorFor(w, p, addr, port, l), l)
  {
    if SBuf(p, 0) == RRQ || SBuf(p, 0) == WRQ {
      RequestErrors(w, TftpRequest.Parse(Bytes(p)), SBuf(p, 0) == WRQ, addr, port, l);
    }
  }

  /** Every packet of every host is answered by the error that fits it, to its sender, or
      by none. */
  lemma EveryErrorIsRight(w: World, p: Packet, addr: Addr, port: Port, l: Luck)
    requires Received(p) && w.out.sent.Nothing? && RealPeer(w)
    ensures AnswersError(Recv(w, p, addr, port, l), addr, port, ErrorFor(w, p, addr, port, l), l)
  {
    if !Foreign(w.st, addr, port) {
      DispatchErrors(Heeded(Allocated(w)), p, addr, port, l);
    }
  }
}
