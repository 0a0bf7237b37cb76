/** tftp_server.c in the form it has: a static record that recv and tftp_tmr
    update in place, each C function proved to leave the state TftpProtocol gives. */
module TftpServer {
  import opened Octets
  import opened TftpFile
  import opened TftpProtocol
  import TftpRequest

  /** The server as the C code holds it: one static record updated in place. */
  class Server {
    var handle: bool
    var lastData: Option<Block>
    var addr: Addr
    var port: Port
    var timer: int
    var lastPkt: int
    var blknum: Word16
    var retries: nat
    var modeWrite: bool
    const sd: SdFile
    var out: Outside

    ghost function Abs(): World
      reads this, sd
    {
      World(Record(handle, lastData, addr, port, timer, lastPkt, blknum, retries, modeWrite),
            out, sd.file)
    }

    /** tftp_init over the zeroed static record. */
    constructor ()
      ensures Initial(Abs())
      ensures fresh(sd)
    {
      sd := new SdFile([]);
      handle, lastData, addr, port := false, None, ANY, 0;
      timer, lastPkt, blknum, retries, modeWrite := 0, 0, 0, 0, false;
      out := Outside(0, 0, 0, Shut, 0, Nothing);
    }

    method SysUntimeout()
      modifies this`out
      ensures out == old(out).(timers := if old(out).timers == 0 then 0 else old(out).timers - 1)
    {
      if out.timers > 0 {
        out := out.(timers := out.timers - 1);
      }
    }

    /** A callback is made. */
    method Note(c: Call)
      modifies this`out
      ensures Abs() == Called(old(Abs()), c)
    {
      out := out.(phase := Advance(out.phase, c),
                  blocksRead := if c.Open? then 0 else if c.Read? then out.blocksRead + 1 else out.blocksRead);
    }

    method PbufFree()
      modifies this`out
      ensures Abs() == Freed(old(Abs()))
    {
      out := out.(frees := out.frees + 1);
    }

    method CloseHandle()
      modifies this
      ensures Abs() == TftpProtocol.CloseHandle(old(Abs()))
    {
      port := 0;
      addr := ANY;
      if lastData.Some? {
        out := out.(frees := out.frees + 1);
        lastData := None;
      }
      SysUntimeout();
      if handle {
        Note(Close);
        handle := false;
      }
    }

    method Transmit(to: Addr, at: Port, r: Reply)
      modifies this
      ensures Abs() == TftpProtocol.Transmit(old(Abs()), to, at, r)
    {
      out := out.(allocs := out.allocs + 1);
      out := out.(sent := if out.sent.Nothing? then One(Datagram(to, at, r)) else Many);
      out := out.(frees := out.frees + 1);
    }

    method SendError(l: Luck, to: Addr, at: Port, code: nat)
      modifies this
      ensures Abs() == TftpProtocol.SendError(old(Abs()), l, to, at, code)
    {
      if l.sendAlloc {
        Transmit(to, at, Error(code));
      }
    }

    method SendAck(l: Luck, number: Word16)
      modifies this
      ensures Abs() == TftpProtocol.SendAck(old(Abs()), l, number)
    {
      if l.sendAlloc {
        Transmit(addr, port, Ack(number));
      }
    }

    method ResendData(l: Luck)
      requires lastData.Some?
      modifies this
      ensures Abs() == TftpProtocol.ResendData(old(Abs()), l)
    {
      if !l.sendAlloc {
        return;
      }
      if !l.copyOk {
        out := out.(allocs := out.allocs + 1);
        out := out.(frees := out.frees + 1);
        return;
      }
      Transmit(addr, port, Data(lastData.value));
    }

    method SendData(l: Luck)
      modifies this, sd
      ensures Abs() == TftpProtocol.SendData(old(Abs()), l)
    {
      if lastData.Some? {
        out := out.(frees := out.frees + 1);
      }
      if !l.dataAlloc {
        lastData := None;
        return;
      }
      out := out.(allocs := out.allocs + 1);
      Note(Read);
      FillBuffer(l);
    }

    method FillBuffer(l: Luck)
      modifies this, sd
      ensures Abs() == TftpProtocol.FillBuffer(old(Abs()), l)
    {
      var ret, bytes := sd.Read(MAX_PAYLOAD, l.readOk);
      if ret < 0 {
        lastData := Some(Block(blknum, []));
        SendError(l, addr, port, ACCESS_VIOLATION);
        CloseHandle();
        return;
      }
      lastData := Some(Block(blknum, bytes));
      ResendData(l);
    }

    method RecvRequest(p: Packet, from: Addr, at: Port, l: Luck)
      requires Received(p)
      modifies this, sd
      ensures Abs() == TftpProtocol.RecvRequest(old(Abs()), p, from, at, l)
    {
      if handle {
        SendError(l, from, at, ACCESS_VIOLATION);
        return;
      }
      out := out.(timers := out.timers + 1);
      var parsed := TftpRequest.Parse(Bytes(p));
      if !parsed.Request? {
        SendError(l, from, at, ACCESS_VIOLATION);
        return;
      }
      var ok := sd.Open(parsed.mode, l.found);
      blknum := 1;
      if !ok {
        SendError(l, from, at, FILE_NOT_FOUND);
        return;
      }
      StartSession(SBuf(p, 0) == WRQ, l.found.value, from, at, l);
    }

    /** The rest of a good request, once the file is open. */
    method StartSession(write: bool, ghost found: seq<Octet>, from: Addr, at: Port, l: Luck)
      requires sd.file == Opened(found)
      modifies this, sd
      ensures Abs() == TftpProtocol.StartSession(old(Abs()), write, found, from, at, l)
    {
      Note(Open(write));
      handle := true;
      addr := from;
      port := at;
      modeWrite := write;
      if write {
        SendAck(l, 0);
      } else {
        SendData(l);
      }
    }

    method RecvData(p: Packet, from: Addr, at: Port, l: Luck)
      requires Received(p)
      modifies this, sd
      ensures Abs() == TftpProtocol.RecvData(old(Abs()), p, from, at, l)
    {
      if !handle || !modeWrite {
        SendError(l, from, at, ACCESS_VIOLATION);
        return;
      }
      var number := SBuf(p, 1);
      if number == blknum {
        var chain := Body(p);
        Note(Write);
        var ok := sd.Write(chain, l.room);
        if !ok {
          SendError(l, from, at, ACCESS_VIOLATION);
          CloseHandle();
        } else {
          SendAck(l, number);
        }
        if |Flatten(chain)| < MAX_PAYLOAD {
          CloseHandle();
        } else {
          blknum := Next(blknum);
        }
      } else if Next(number) == blknum {
        SendAck(l, number);
      } else {
        SendError(l, from, at, UNKNOWN_TRFR_ID);
      }
    }

    method RecvAck(p: Packet, from: Addr, at: Port, l: Luck)
      requires Received(p)
      modifies this, sd
      ensures Abs() == TftpProtocol.RecvAck(old(Abs()), p, from, at, l)
    {
      if !handle || modeWrite {
        SendError(l, from, at, ACCESS_VIOLATION);
        return;
      }
      if SBuf(p, 1) != blknum {
        SendError(l, from, at, UNKNOWN_TRFR_ID);
        return;
      }
      var last := false;
      if lastData.Some? {
        last := HEADER + |lastData.value.payload| != MAX_PAYLOAD + HEADER;
      }
      if !last {
        blknum := Next(blknum);
        SendData(l);
      } else {
        CloseHandle();
      }
    }

    method Recv(p: Packet, from: Addr, at: Port, l: Luck)
      requires Received(p)
      modifies this, sd
      ensures Abs() == TftpProtocol.Recv(old(Abs()), p, from, at, l)
    {
      PbufArrives();
      if (port != 0 && at != port) || (addr != ANY && addr != from) {
        Refuse(from, at, l);
      } else {
        RecvFromPeer(p, from, at, l);
      }
    }

    /** lwIP hands over the buffer of the packet. */
    method PbufArrives()
      modifies this`out
      ensures Abs() == Allocated(old(Abs()))
    {
      out := out.(allocs := out.allocs + 1);
    }

    method Refuse(from: Addr, at: Port, l: Luck)
      modifies this
      ensures Abs() == Freed(TftpProtocol.SendError(old(Abs()), l, from, at, ACCESS_VIOLATION))
    {
      SendError(l, from, at, ACCESS_VIOLATION);
      PbufFree();
    }

    method RecvFromPeer(p: Packet, from: Addr, at: Port, l: Luck)
      requires Received(p)
      modifies this, sd
      ensures Abs() == Freed(TftpProtocol.Dispatch(Heeded(old(Abs())), p, from, at, l))
    {
      NotePacket();
      Dispatch(p, from, at, l);
      PbufFree();
    }

    method NotePacket()
      modifies this`lastPkt, this`retries
      ensures Abs() == Heeded(old(Abs()))
    {
      lastPkt := timer;
      retries := 0;
    }

    method Dispatch(p: Packet, from: Addr, at: Port, l: Luck)
      requires Received(p)
      modifies this, sd
      ensures Abs() == TftpProtocol.Dispatch(old(Abs()), p, from, at, l)
    {
      var opcode := SBuf(p, 0);
      if opcode == RRQ || opcode == WRQ {
        RecvRequest(p, from, at, l);
      } else if opcode == DATA {
        RecvData(p, from, at, l);
      } else if opcode == ACK {
        RecvAck(p, from, at, l);
      } else {
        SendError(l, from, at, ILLEGAL_OPERATION);
      }
    }

    method Tick(l: Luck)
      requires out.timers > 0
      modifies this
      ensures Abs() == TftpProtocol.Tick(old(Abs()), l)
    {
      out := out.(timers := out.timers - 1);
      timer := timer + 1;
      if !handle {
        return;
      }
      out := out.(timers := out.timers + 1);
      if timer - lastPkt > TIMEOUT_TICKS {
        if lastData.Some? && retries < MAX_RETRIES {
          ResendData(l);
          retries := retries + 1;
        } else {
          CloseHandle();
        }
      }
    }
  }
}
