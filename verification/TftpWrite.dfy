/** Write transfers end to end: a stop-and-wait client (section 2 of RFC 1350), a
    network that may lose or duplicate packets but keeps their order, other hosts
    that send anything, the timer, and the server. */
module TftpWrite {
  import opened Octets
  import opened TftpFile
  import opened TftpProtocol
  import opened TftpRuns
  import opened TftpRead
  import TftpRequest

  /** cur is the packet the client is sending: 0 is the request, k is block k. */
  datatype Client = Client(addr: Addr, port: Port, name: seq<Octet>, content: seq<Octet>,
                           cur: nat, active: bool, done: bool)

  ghost predicate ProperClient(c: Client) {
    && c.addr != ANY && c.port != 0
    && TftpRequest.NulFree(c.name) && |c.name| <= 20
  }

  /** The bytes of the client's packet n. */
  function PacketBytes(c: Client, n: nat): seq<Octet> {
    if n == 0 then TftpRequest.Encode(true, c.name, OCTET[..5])
    else Be16(DATA) + Be16(n % 0x1_0000) + BlockOf(c.content, n)
  }

  /** up holds the client's packets by number. down holds the server's answers to
      the client; downTo[i] is the number of the packet that answer i responds to,
      which only the proof looks at. saved is what a completed transfer stored. */
  datatype Sys = Sys(w: World, c: Client, up: seq<nat>, down: seq<Reply>, downTo: seq<nat>,
                     saved: Option<seq<Octet>>)

  datatype Move =
    | ClientSends
    | UpArrives(p: Packet, l: Luck)
    | UpLost(at: nat) | UpCopied(at: nat)
    | DownArrives
    | DownLost(at: nat) | DownCopied(at: nat)
    | TimerFires(l: Luck)
    | StrangerSends(p: Packet, addr: Addr, port: Port, l: Luck)

  function Without<T>(s: seq<T>, i: nat): seq<T>
    requires i < |s|
  {
    s[..i] + s[i + 1..]
  }

  function Copied<T>(s: seq<T>, i: nat): seq<T>
    requires i < |s|
  {
    s[..i] + [s[i]] + s[i..]
  }

  /** The answer of a step, if it is addressed to the client. */
  function ForClient(c: Client, sent: Sent): Option<Reply> {
    if sent.One? && sent.dg.addr == c.addr && sent.dg.port == c.port then Some(sent.dg.reply) else None
  }

  ghost predicate Enabled(s: Sys, m: Move) {
    match m
    case ClientSends => s.c.active
    case UpArrives(p, l) =>
      && s.up != [] && Received(p) && |p.head| >= HEADER
      && Bytes(p) == PacketBytes(s.c, s.up[0])
    case UpLost(i) => i < |s.up|
    case UpCopied(i) => i < |s.up|
    case DownArrives => s.down != []
    case DownLost(i) => i < |s.down|
    case DownCopied(i) => i < |s.down|
    case TimerFires(_) => s.w.out.timers > 0
    case StrangerSends(p, addr, port, _) =>
      Received(p) && addr != ANY && port != 0 && (addr != s.c.addr || port != s.c.port)
  }

  /** The client's reaction to an answer: advance on the ACK it waits for, give up on an error. */
  function ClientHears(c: Client, r: Reply): Client {
    if !c.active then c
    else match r
         case Error(_) => c.(active := false)
         case Ack(number) =>
           if number != c.cur % 0x1_0000 then c
           else if c.cur == BlockCount(c.content) then c.(active := false, done := true)
           else c.(cur := c.cur + 1)
         case Data(_) => c
  }

  /** The server goes to w', answering the client's packet number to. */
  function ServerMoves(s: Sys, w': World, to: nat): Sys {
    var answer := ForClient(s.c, w'.out.sent);
    if answer.None? then s.(w := w')
    else s.(w := w', down := s.down + [answer.value], downTo := s.downTo + [to])
  }

  /** The card takes the whole payload. */
  predicate Fits(p: Packet, l: Luck) {
    |Flatten(Body(p))| <= l.room
  }

  /** The first of the client's packets has taken the server to w'; what was stored counts
      as saved if the packet ended the session and its write did not fail. */
  function Delivered(s: Sys, w': World, fits: bool): Sys
    requires s.up != []
  {
    var s' := ServerMoves(s, w', s.up[0]).(up := s.up[1..]);
    if s.w.st.handle && !w'.st.handle && fits then s'.(saved := Some(w'.file.content[..w'.file.pos])) else s'
  }

  /** The client hears the oldest answer. */
  ghost function AfterAnswer(s: Sys): Sys
    requires s.down != [] && |s.down| == |s.downTo|
  {
    s.(c := ClientHears(s.c, s.down[0]), down := s.down[1..], downTo := s.downTo[1..])
  }

  ghost function After(s: Sys, m: Move): Sys
    requires Enabled(s, m) && |s.down| == |s.downTo|
  {
    match m
    case ClientSends => s.(up := s.up + [s.c.cur])
    case UpArrives(p, l) =>
      var e := Arrives(p, s.c.addr, s.c.port);
      Delivered(s, Step(s.w, e, l), Fits(p, l))
    case UpLost(i) => s.(up := Without(s.up, i))
    case UpCopied(i) => s.(up := Copied(s.up, i))
    case DownArrives => AfterAnswer(s)
    case DownLost(i) => s.(down := Without(s.down, i), downTo := Without(s.downTo, i))
    case DownCopied(i) => s.(down := Copied(s.down, i), downTo := Copied(s.downTo, i))
    case TimerFires(l) =>
      ServerMoves(s, Step(s.w, Event.TimerFires, l), 0)
    case StrangerSends(p, addr, port, l) =>
      ServerMoves(s, Step(s.w, Arrives(p, addr, port), l), 0)
  }

  ghost predicate Start(s: Sys) {
    && Initial(s.w)
    && ProperClient(s.c) && s.c.cur == 0 && s.c.active && !s.c.done
    && s.up == [] && s.down == [] && s.downTo == [] && s.saved == None
  }

  ghost predicate Sorted(s: seq<nat>) {
    forall i, j | 0 <= i < j < |s| :: s[i] <= s[j]
  }

  ghost predicate Within(s: seq<nat>, lo: int, hi: int) {
    forall i | 0 <= i < |s| :: lo <= s[i] <= hi
  }

  /** Blocks stored so far in an open write session. */
  function Stored(w: World): nat {
    w.file.pos / MAX_PAYLOAD
  }

  ghost predicate Mine(s: Sys) {
    s.w.st.handle && s.w.st.addr == s.c.addr && s.w.st.port == s.c.port
  }

  /** The two channels read as one line, answers first: the packet numbers in
      flight never decrease and never differ by more than one from the client's. */
  ghost predicate Lockstep(s: Sys) {
    && |s.down| == |s.downTo|
    && Sorted(s.downTo + s.up)
    && Within(s.downTo + s.up, s.c.cur - 1, s.c.cur)
    && s.c.cur <= BlockCount(s.c.content)
    && forall i | 0 <= i < |s.down| && s.down[i].Ack? :: s.down[i].number == s.downTo[i] % 0x1_0000
  }

  /** The client's own session: what is stored is its first blocks, and the server
      stands between the answers it gave and the packets still to come. */
  ghost predicate InStep(s: Sys) {
    Mine(s) ==>
      var k := Stored(s.w);
      && s.w.st.modeWrite
      && s.w.file.pos == MAX_PAYLOAD * k <= |s.c.content|
      && s.w.file.content[..MAX_PAYLOAD * k] == s.c.content[..MAX_PAYLOAD * k]
      && Overlaid(s.w.file)
      && s.w.st.blknum == (k + 1) % 0x1_0000
      && s.c.cur - 1 <= k <= s.c.cur
      && Within(s.downTo, 0, k) && Within(s.up, k, s.c.cur)
  }

  ghost predicate RealPeer(w: World) {
    w.st.handle ==> w.st.addr != ANY && w.st.port != 0
  }

  ghost predicate AckedLast(s: Sys, i: int) {
    0 <= i < |s.down| && i < |s.downTo| && s.down[i].Ack? && s.downTo[i] == BlockCount(s.c.content)
  }

  /** Nothing reports completion before the whole file is stored. */
  ghost predicate NoFalseSuccess(s: Sys) {
    && (s.saved.Some? ==> s.saved.value == s.c.content)
    && (s.c.done ==> s.saved.Some?)
    && (forall i | AckedLast(s, i) :: s.saved.Some?)
  }

  ghost predicate SysInv(s: Sys) {
    Inv(s.w) && RealPeer(s.w) && ProperClient(s.c) && Lockstep(s) && InStep(s) && NoFalseSuccess(s)
  }

  // --- What arrives -------------------------------------------------------

  lemma HeaderOf(p: Packet, a: Word16, b: Word16, rest: seq<Octet>)
    requires Received(p) && |p.head| >= HEADER && Bytes(p) == Be16(a) + Be16(b) + rest
    ensures SBuf(p, 0) == a && SBuf(p, 1) == b && Flatten(Body(p)) == rest
  {
    assert (p.head + p.beyond)[0..2] == Bytes(p)[0..2] == Be16(a);
    assert (p.head + p.beyond)[2..4] == Bytes(p)[2..4] == Be16(b);
    Be16RoundTrip(a);
    Be16RoundTrip(b);
    assert Body(p)[1..] == p.tail;
    assert Flatten(Body(p)) == p.head[HEADER..] + Flatten(p.tail) == Bytes(p)[HEADER..];
  }

  lemma RequestArrives(c: Client, p: Packet)
    requires ProperClient(c) && Received(p) && |p.head| >= HEADER && Bytes(p) == PacketBytes(c, 0)
    ensures SBuf(p, 0) == WRQ
    ensures TftpRequest.Parse(Bytes(p)) == TftpRequest.Request(c.name + [0], OCTET)
  {
    assert (p.head + p.beyond)[0..2] == Bytes(p)[0..2] == Be16(WRQ);
    Be16RoundTrip(WRQ);
    TftpRequest.EncodeIsRequest(true, c.name, OCTET[..5]);
    TftpRequest.ParseEncoded(Bytes(p), c.name, OCTET[..5]);
    assert OCTET[..5] + [0] == OCTET;
  }

  lemma BlockArrives(c: Client, n: nat, p: Packet)
    requires n >= 1 && Received(p) && |p.head| >= HEADER && Bytes(p) == PacketBytes(c, n)
    ensures SBuf(p, 0) == DATA && SBuf(p, 1) == n % 0x1_0000 && Flatten(Body(p)) == BlockOf(c.content, n)
  {
    HeaderOf(p, DATA, n % 0x1_0000, BlockOf(c.content, n));
  }

  // --- What the server does with it ---------------------------------------
  // These lemmas are about one call of recv, before which nothing was sent.

  ghost predicate Answers(w: World, addr: Addr, port: Port, r: Option<Reply>) {
    w.out.sent == if r.Some? then One(Datagram(addr, port, r.value)) else Nothing
  }

  /** Same session, same file, at most an error for the sender. */
  ghost predicate Refused(w: World, w': World, addr: Addr, port: Port) {
    && w'.st.handle == w.st.handle && w'.st.addr == w.st.addr && w'.st.port == w.st.port
    && w'.st.modeWrite == w.st.modeWrite && (w.st.handle ==> w'.st.blknum == w.st.blknum)
    && w'.file == w.file
    && (w'.out.sent.Nothing? || SendsError(w', addr, port))
  }

  ghost predicate SendsError(w: World, addr: Addr, port: Port) {
    w.out.sent.One? && w.out.sent.dg.addr == addr && w.out.sent.dg.port == port && w.out.sent.dg.reply.Error?
  }

  /** Anyone who is not the peer of an open session is refused. */
  lemma OthersRefused(w: World, p: Packet, addr: Addr, port: Port, l: Luck)
    requires Received(p) && w.out.sent.Nothing? && Foreign(w.st, addr, port)
    ensures Refused(w, Recv(w, p, addr, port, l), addr, port)
  {}

  lemma SecondRequestRefused(w: World, p: Packet, addr: Addr, port: Port, l: Luck)
    requires Received(p) && w.out.sent.Nothing? && !Foreign(w.st, addr, port)
    requires w.st.handle && SBuf(p, 0) == WRQ
    ensures Refused(w, Recv(w, p, addr, port, l), addr, port)
  {
    assert Recv(w, p, addr, port, l) == Freed(SendError(Heeded(Allocated(w)), l, addr, port, ACCESS_VIOLATION));
  }

  lemma LateBlockRefused(w: World, p: Packet, addr: Addr, port: Port, l: Luck)
    requires Received(p) && w.out.sent.Nothing? && !Foreign(w.st, addr, port)
    requires !w.st.handle && SBuf(p, 0) == DATA
    ensures Refused(w, Recv(w, p, addr, port, l), addr, port)
  {
    assert Recv(w, p, addr, port, l) == Freed(SendError(Heeded(Allocated(w)), l, addr, port, ACCESS_VIOLATION));
  }

  /** A request that reaches a closed server opens a session or is refused. */
  lemma RequestOpens(w: World, c: Client, p: Packet, l: Luck)
    requires ProperClient(c) && Received(p) && |p.head| >= HEADER && Bytes(p) == PacketBytes(c, 0)
    requires w.out.sent.Nothing? && !Foreign(w.st, c.addr, c.port) && !w.st.handle
    ensures var w' := Recv(w, p, c.addr, c.port, l);
            if l.found.None? then Refused(w, w', c.addr, c.port)
            else && w'.st.handle && w'.st.addr == c.addr && w'.st.port == c.port && w'.st.modeWrite
                 && w'.st.blknum == 1 && w'.file == Opened(l.found.value)
                 && Answers(w', c.addr, c.port, if l.sendAlloc then Some(Ack(0)) else None)
  {
    RequestArrives(c, p);
    var h := Heeded(Allocated(w));
    var reset := World(h.st.(blknum := 1), h.out.(timers := h.out.timers + 1), h.file);
    assert Recv(w, p, c.addr, c.port, l) == Freed(
        if l.found.None? then SendError(reset, l, c.addr, c.port, FILE_NOT_FOUND)
        else StartSession(reset, true, l.found.value, c.addr, c.port, l));
  }

  /** A block for an open write session of this sender. */
  ghost predicate BlockForSession(w: World, p: Packet, addr: Addr, port: Port) {
    && Received(p) && w.out.sent.Nothing? && !Foreign(w.st, addr, port) && w.st.handle && w.st.modeWrite
    && w.st.addr == addr && w.st.port == port && SBuf(p, 0) == DATA
  }

  lemma RepeatAcked(w: World, p: Packet, addr: Addr, port: Port, l: Luck)
    requires BlockForSession(w, p, addr, port) && Next(SBuf(p, 1)) == w.st.blknum
    ensures var w' := Recv(w, p, addr, port, l);
            && w'.st.handle && w'.st.addr == addr && w'.st.port == port && w'.st.modeWrite
            && w'.st.blknum == w.st.blknum && w'.file == w.file
            && Answers(w', addr, port, if l.sendAlloc then Some(Ack(SBuf(p, 1))) else None)
  {
    assert Recv(w, p, addr, port, l) == Freed(SendAck(Heeded(Allocated(w)), l, SBuf(p, 1)));
  }

  lemma BlockStored(w: World, p: Packet, addr: Addr, port: Port, l: Luck)
    requires BlockForSession(w, p, addr, port) && SBuf(p, 1) == w.st.blknum
    requires Fits(p, l)
    ensures var w', body := Recv(w, p, addr, port, l), Flatten(Body(p));
            && w'.file == AfterWrite(w.file, body)
            && Answers(w', addr, port, if l.sendAlloc then Some(Ack(SBuf(p, 1))) else None)
            && if |body| < MAX_PAYLOAD then !w'.st.handle
               else w'.st.handle && w'.st.addr == addr && w'.st.port == port && w'.st.modeWrite
                    && w'.st.blknum == Next(w.st.blknum)
  {
    var body := Flatten(Body(p));
    assert body[..Min(l.room, |body|)] == body;
    BlockStoredAnswer(Heeded(Allocated(w)), p, addr, port, l);
  }

  lemma BlockStoredAnswer(w: World, p: Packet, addr: Addr, port: Port, l: Luck)
    requires BlockForSession(w, p, addr, port) && SBuf(p, 1) == w.st.blknum
    requires Fits(p, l)
    ensures var w', body := RecvData(w, p, addr, port, l), Flatten(Body(p));
            && w'.file == AfterWrite(w.file, body[..Min(l.room, |body|)])
            && w'.out.sent == SendAck(w, l, SBuf(p, 1)).out.sent
            && if |body| < MAX_PAYLOAD then !w'.st.handle
               else w'.st == w.st.(blknum := Next(w.st.blknum))
  {}

  /** A write that fails ends the session, with an error or without a word, after what
      the card took of the block. */
  lemma BlockFails(w: World, p: Packet, addr: Addr, port: Port, l: Luck)
    requires BlockForSession(w, p, addr, port) && SBuf(p, 1) == w.st.blknum && !Fits(p, l)
    ensures var w' := Recv(w, p, addr, port, l);
      && !w'.st.handle && w'.file == AfterWrite(w.file, Flatten(Body(p))[..l.room])
      && Answers(w', addr, port, if l.sendAlloc then Some(Error(ACCESS_VIOLATION)) else None)
  {
    BlockFailsAnswer(Heeded(Allocated(w)), p, addr, port, l);
  }

  lemma BlockFailsAnswer(w: World, p: Packet, addr: Addr, port: Port, l: Luck)
    requires BlockForSession(w, p, addr, port) && SBuf(p, 1) == w.st.blknum && !Fits(p, l)
    ensures var w' := RecvData(w, p, addr, port, l);
      && !w'.st.handle && w'.file == AfterWrite(w.file, Flatten(Body(p))[..l.room])
      && w'.out.sent == SendError(w, l, addr, port, ACCESS_VIOLATION).out.sent
  {}

  /** Nothing is sent except to this host, and an open session is this host's. */
  ghost predicate OnlyWith(w: World, addr: Addr, port: Port) {
    && (w.out.sent.Nothing? || (w.out.sent.One? && w.out.sent.dg.addr == addr && w.out.sent.dg.port == port))
    && (w.st.handle ==> w.st.addr == addr && w.st.port == port)
  }

  /** Whoever sends, the server answers the sender only, and a session it opens is the sender's. */
  lemma AnswersSenderOnly(w: World, p: Packet, addr: Addr, port: Port, l: Luck)
    requires Received(p) && w.out.sent.Nothing? && RealPeer(w) && !Foreign(w.st, addr, port)
    ensures OnlyWith(Recv(w, p, addr, port, l), addr, port)
  {
    var h, opcode := Heeded(Allocated(w)), SBuf(p, 0);
    if opcode == RRQ || opcode == WRQ {
      RequestAnswers(h, TftpRequest.Parse(Bytes(p)), opcode == WRQ, addr, port, l);
    } else if opcode == DATA {
      DataAnswers(h, p, addr, port, l);
    } else if opcode == ACK {
      AckAnswers(h, p, addr, port, l);
    }
  }

  lemma RequestAnswers(w: World, parsed: TftpRequest.Parsed, write: bool, addr: Addr, port: Port, l: Luck)
    requires OnlyWith(w, addr, port) && w.out.sent.Nothing?
    ensures OnlyWith(AnswerRequest(w, parsed, write, addr, port, l), addr, port)
  {
    if !w.st.handle && l.found.Some? {
      var reset := World(w.st.(blknum := 1), w.out.(timers := w.out.timers + 1), w.file);
      StartAnswers(reset, write, l.found.value, addr, port, l);
    }
  }

  lemma StartAnswers(w: World, write: bool, found: seq<Octet>, addr: Addr, port: Port, l: Luck)
    requires w.out.sent.Nothing?
    ensures OnlyWith(StartSession(w, write, found, addr, port, l), addr, port)
  {
    var session := Called(
      World(w.st.(handle := true, addr := addr, port := port, modeWrite := write), w.out, Opened(found)),
      Open(write));
    SendDataAnswers(session, l);
  }

  lemma SendDataAnswers(w: World, l: Luck)
    requires w.out.sent.Nothing?
    ensures OnlyWith(SendData(w, l), w.st.addr, w.st.port)
  {}

  lemma AckAnswers(w: World, p: Packet, addr: Addr, port: Port, l: Luck)
    requires Received(p) && OnlyWith(w, addr, port) && w.out.sent.Nothing?
    ensures OnlyWith(RecvAck(w, p, addr, port, l), addr, port)
  {
    SendDataAnswers(w.(st := w.st.(blknum := Next(w.st.blknum))), l);
  }

  lemma DataAnswers(w: World, p: Packet, addr: Addr, port: Port, l: Luck)
    requires Received(p) && OnlyWith(w, addr, port) && w.out.sent.Nothing?
    ensures OnlyWith(RecvData(w, p, addr, port, l), addr, port)
  {}
}
