/** The state record of the TFTP server, what it touches outside itself, and for
    each C function of tftp_server.c the state it leaves behind. */
module TftpProtocol {
  import opened Octets
  import opened TftpFile
  import TftpRequest

  const MAX_PAYLOAD := 512
  const HEADER := 4
  const TIMEOUT_TICKS := 10
  const MAX_RETRIES := 5

  const RRQ := 1
  const WRQ := 2
  const DATA := 3
  const ACK := 4

  const FILE_NOT_FOUND := 1
  const ACCESS_VIOLATION := 2
  const ILLEGAL_OPERATION := 4
  const UNKNOWN_TRFR_ID := 5

  /** IP addresses; 0 is IP_ANY. */
  type Addr = nat
  type Port = Word16
  const ANY: Addr := 0

  /** A DATA packet as kept in last_data: tot_len is HEADER + |payload|. */
  datatype Block = Block(number: Word16, payload: seq<Octet>)

  datatype Reply = Data(block: Block) | Ack(number: Word16) | Error(code: nat)
  datatype Datagram = Datagram(addr: Addr, port: Port, reply: Reply)

  /** Calls of the tftp_context callbacks; Open is counted when it succeeds. */
  datatype Call = Open(write: bool) | Read | Write | Close

  /** The contract of struct tftp_context: the state of an observer of its calls. */
  datatype Phase = Shut | Reading | Writing | Broken

  function Advance(p: Phase, c: Call): Phase {
    match (p, c)
    case (Shut, Open(write)) => if write then Writing else Reading
    case (Reading, Read) => Reading
    case (Writing, Write) => Writing
    case (Reading, Close) => Shut
    case (Writing, Close) => Shut
    case _ => Broken
  }

  /** struct tftp_state; handle says whether the pointer is non-NULL. */
  datatype Record = Record(
    handle: bool, lastData: Option<Block>, addr: Addr, port: Port,
    timer: int, lastPkt: int, blknum: Word16, retries: nat, modeWrite: bool)

  /** The datagrams of one step, as far as they matter: no step sends two. */
  datatype Sent = Nothing | One(dg: Datagram) | Many

  /** What the server does outside its record: queued tftp_tmr callbacks, pbufs
      allocated and freed, the observer of its callbacks, the reads since the last
      open, and what the current step sent. */
  datatype Outside = Outside(
    timers: nat, allocs: nat, frees: nat, phase: Phase, blocksRead: nat, sent: Sent)

  datatype World = World(st: Record, out: Outside, file: File)

  /** How the environment answers during one step: the file found by open, whether
      read succeeds, how many bytes the card takes, and which allocations succeed. */
  datatype Luck = Luck(found: Option<seq<Octet>>, readOk: bool, room: nat,
                       dataAlloc: bool, sendAlloc: bool, copyOk: bool)

  /** A received pbuf chain: first buffer, the rest, and the memory that happens
      to follow the first buffer, which the header reads do not check for. */
  datatype Packet = Packet(head: seq<Octet>, tail: seq<seq<Octet>>, beyond: seq<Octet>)

  function Bytes(p: Packet): seq<Octet> {
    p.head + Flatten(p.tail)
  }

  ghost predicate Received(p: Packet) {
    |p.beyond| >= HEADER && |Bytes(p)| <= 0xFFFF
  }

  /** sbuf[i] in host order. */
  function SBuf(p: Packet, i: nat): Word16
    requires Received(p) && i < 2
  {
    FromBe16((p.head + p.beyond)[2 * i..2 * i + 2])
  }

  /** The payload after pbuf_remove_header, which leaves a shorter first buffer alone. */
  function Body(p: Packet): seq<seq<Octet>> {
    [if |p.head| >= HEADER then p.head[HEADER..] else p.head] + p.tail
  }

  /** After tftp_init, over a zeroed static record. */
  ghost predicate Initial(w: World) {
    && !w.st.handle && w.st.lastData == None && w.st.addr == ANY && w.st.port == 0
    && w.st.timer == 0 && w.st.lastPkt == 0 && w.st.retries == 0
    && w.out.timers == 0 && w.out.allocs == w.out.frees == 0
    && w.out.phase == Shut && w.out.sent == Nothing
  }

  function Freed(w: World): World {
    w.(out := w.out.(frees := w.out.frees + 1))
  }

  function Allocated(w: World): World {
    w.(out := w.out.(allocs := w.out.allocs + 1))
  }

  function Called(w: World, c: Call): World {
    w.(out := w.out.(phase := Advance(w.out.phase, c),
                     blocksRead := if c.Open? then 0 else if c.Read? then w.out.blocksRead + 1 else w.out.blocksRead))
  }

  /** A buffer allocated for one datagram, sent, and freed. */
  function Transmit(w: World, addr: Addr, port: Port, r: Reply): World {
    var sent := if w.out.sent.Nothing? then One(Datagram(addr, port, r)) else Many;
    Freed(Allocated(w.(out := w.out.(sent := sent))))
  }

  function CloseHandle(w: World): World {
    var freed := if w.st.lastData.Some? then Freed(w) else w;
    var quiet := freed.(st := w.st.(port := 0, addr := ANY, lastData := None, handle := false),
                        out := freed.out.(timers := if w.out.timers == 0 then 0 else w.out.timers - 1));
    if w.st.handle then Called(quiet, Close) else quiet
  }

  function SendError(w: World, l: Luck, addr: Addr, port: Port, code: nat): World {
    if l.sendAlloc then Transmit(w, addr, port, Error(code)) else w
  }

  function SendAck(w: World, l: Luck, number: Word16): World {
    if l.sendAlloc then Transmit(w, w.st.addr, w.st.port, Ack(number)) else w
  }

  function ResendData(w: World, l: Luck): World
    requires w.st.lastData.Some?
  {
    if !l.sendAlloc then w
    else if !l.copyOk then Freed(Allocated(w))
    else Transmit(w, w.st.addr, w.st.port, Data(w.st.lastData.value))
  }

  function SendData(w: World, l: Luck): World {
    var dropped := if w.st.lastData.Some? then Freed(w) else w;
    if !l.dataAlloc then dropped.(st := w.st.(lastData := None))
    else FillBuffer(Called(Allocated(dropped), Read), l)
  }

  /** The new buffer is read into and sent, or dropped with the session. */
  function FillBuffer(w: World, l: Luck): World {
    if !l.readOk then
      var held := w.(st := w.st.(lastData := Some(Block(w.st.blknum, []))));
      CloseHandle(SendError(held, l, w.st.addr, w.st.port, ACCESS_VIOLATION))
    else
      var block := Block(w.st.blknum, ReadAt(w.file, MAX_PAYLOAD));
      ResendData(World(w.st.(lastData := Some(block)), w.out, AfterRead(w.file, MAX_PAYLOAD)), l)
  }

  function RecvRequest(w: World, p: Packet, addr: Addr, port: Port, l: Luck): World
    requires Received(p)
  {
    AnswerRequest(w, TftpRequest.Parse(Bytes(p)), SBuf(p, 0) == WRQ, addr, port, l)
  }

  function AnswerRequest(w: World, parsed: TftpRequest.Parsed, write: bool, addr: Addr, port: Port, l: Luck): World {
    if w.st.handle then SendError(w, l, addr, port, ACCESS_VIOLATION)
    else
      var timed := w.(out := w.out.(timers := w.out.timers + 1));
      match parsed
      case BadName => SendError(timed, l, addr, port, ACCESS_VIOLATION)
      case BadMode => SendError(timed, l, addr, port, ACCESS_VIOLATION)
      case Request(_, mode) =>
        var reset := timed.(st := w.st.(blknum := 1));
        if mode != OCTET || l.found.None? then SendError(reset, l, addr, port, FILE_NOT_FOUND)
        else StartSession(reset, write, l.found.value, addr, port, l)
  }

  /** The request is good and the file is open. */
  function StartSession(w: World, write: bool, found: seq<Octet>, addr: Addr, port: Port, l: Luck): World {
    var session := Called(
      World(w.st.(handle := true, addr := addr, port := port, modeWrite := write),
            w.out, Opened(found)),
      Open(write));
    if write then SendAck(session, l, 0) else SendData(session, l)
  }

  function RecvData(w: World, p: Packet, addr: Addr, port: Port, l: Luck): World
    requires Received(p)
  {
    if !w.st.handle || !w.st.modeWrite then SendError(w, l, addr, port, ACCESS_VIOLATION)
    else
      var number := SBuf(p, 1);
      if number == w.st.blknum then
        var body := Flatten(Body(p));
        var called := Called(w, Write);
        var stored := called.(file := AfterWrite(w.file, body[..Min(l.room, |body|)]));
        var answered := if |body| <= l.room then SendAck(stored, l, number)
                        else CloseHandle(SendError(stored, l, addr, port, ACCESS_VIOLATION));
        if |body| < MAX_PAYLOAD then CloseHandle(answered)
        else answered.(st := answered.st.(blknum := Next(w.st.blknum)))
      else if Next(number) == w.st.blknum then SendAck(w, l, number)
      else SendError(w, l, addr, port, UNKNOWN_TRFR_ID)
  }

  function RecvAck(w: World, p: Packet, addr: Addr, port: Port, l: Luck): World
    requires Received(p)
  {
    if !w.st.handle || w.st.modeWrite then SendError(w, l, addr, port, ACCESS_VIOLATION)
    else if SBuf(p, 1) != w.st.blknum then SendError(w, l, addr, port, UNKNOWN_TRFR_ID)
    else if w.st.lastData.Some? && |w.st.lastData.value.payload| != MAX_PAYLOAD then CloseHandle(w)
    else SendData(w.(st := w.st.(blknum := Next(w.st.blknum))), l)
  }

  function Next(n: Word16): Word16 {
    (n + 1) % 0x1_0000
  }

  /** The filter in front of the switch: a packet that is not from the peer. */
  predicate Foreign(st: Record, addr: Addr, port: Port) {
    (st.port != 0 && port != st.port) || (st.addr != ANY && st.addr != addr)
  }

  function Recv(w: World, p: Packet, addr: Addr, port: Port, l: Luck): World
    requires Received(p)
  {
    var arrived := Allocated(w);
    if Foreign(w.st, addr, port) then Freed(SendError(arrived, l, addr, port, ACCESS_VIOLATION))
    else Freed(Dispatch(Heeded(arrived), p, addr, port, l))
  }

  /** The packet is from the peer: the timeout starts over. */
  function Heeded(w: World): World {
    w.(st := w.st.(lastPkt := w.st.timer, retries := 0))
  }

  /** The switch on the opcode. */
  function Dispatch(w: World, p: Packet, addr: Addr, port: Port, l: Luck): World
    requires Received(p)
  {
    var opcode := SBuf(p, 0);
    if opcode == RRQ || opcode == WRQ then RecvRequest(w, p, addr, port, l)
    else if opcode == DATA then RecvData(w, p, addr, port, l)
    else if opcode == ACK then RecvAck(w, p, addr, port, l)
    else SendError(w, l, addr, port, ILLEGAL_OPERATION)
  }

  /** One queued tftp_tmr callback leaves the queue and runs. */
  function Tick(w: World, l: Luck): World
    requires w.out.timers > 0
  {
    var ticked := World(w.st.(timer := w.st.timer + 1), w.out.(timers := w.out.timers - 1), w.file);
    if !w.st.handle then ticked
    else
      var queued := ticked.(out := w.out);
      if queued.st.timer - queued.st.lastPkt <= TIMEOUT_TICKS then queued
      else if queued.st.lastData.Some? && queued.st.retries < MAX_RETRIES then
        var resent := ResendData(queued, l);
        resent.(st := resent.st.(retries := queued.st.retries + 1))
      else CloseHandle(queued)
  }

  datatype Event = Arrives(p: Packet, addr: Addr, port: Port) | TimerFires

  /** An event the network or the timer queue can produce in w. */
  ghost predicate Possible(w: World, e: Event) {
    match e
    case Arrives(p, _, _) => Received(p)
    case TimerFires => w.out.timers > 0
  }

  /** Ready for the next step: what earlier steps sent is gone. */
  function Fresh(w: World): World {
    w.(out := w.out.(sent := Nothing))
  }

  function Step(w: World, e: Event, l: Luck): World
    requires Possible(w, e)
  {
    match e
    case Arrives(p, addr, port) => Recv(Fresh(w), p, addr, port, l)
    case TimerFires => Tick(Fresh(w), l)
  }
}
