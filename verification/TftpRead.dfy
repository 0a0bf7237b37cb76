/** Read transfers: what a peer is sent, for every packet it or anyone else sends. */
module TftpRead {
  import opened Octets
  import opened TftpFile
  import opened TftpProtocol
  import opened TftpRuns
  import TftpRequest

  /** Block k (from 1) of a file, by RFC 1350: bytes 512(k-1) up to 512k. */
  function BlockOf(content: seq<Octet>, k: nat): seq<Octet>
    requires k >= 1
  {
    var start := Min(MAX_PAYLOAD * (k - 1), |content|);
    Slice(content, start, Min(MAX_PAYLOAD, |content| - start))
  }

  /** How many blocks a file has; the last one is the short one. */
  function BlockCount(content: seq<Octet>): nat {
    |content| / MAX_PAYLOAD + 1
  }

  function DataPacket(content: seq<Octet>, k: nat): Block
    requires k >= 1
  {
    Block(k % 0x1_0000, BlockOf(content, k))
  }

  /** A block shorter than 512 bytes is the last, and only that one; it is empty
      when 512 divides the length of the file. */
  lemma ShortBlockIsLast(content: seq<Octet>, k: nat)
    requires k >= 1 && MAX_PAYLOAD * (k - 1) <= |content|
    ensures |BlockOf(content, k)| <= MAX_PAYLOAD
    ensures |BlockOf(content, k)| < MAX_PAYLOAD <==> k == BlockCount(content)
    ensures k == BlockCount(content) && |content| % MAX_PAYLOAD == 0 ==> BlockOf(content, k) == []
  {}

  /** Block k under a number that is ahead by skips. */
  function Shifted(content: seq<Octet>, k: nat, skips: nat): Block
    requires k >= 1
  {
    Block((k + skips) % 0x1_0000, BlockOf(content, k))
  }

  ghost predicate OpenRead(w: World) {
    w.st.handle && !w.st.modeWrite
  }

  /** A DATA datagram of this step is the block last read, addressed to the peer. */
  ghost predicate SendsCurrent(w: World, skips: nat) {
    w.out.blocksRead >= 1 && w.out.sent ==
      One(Datagram(w.st.addr, w.st.port, Data(Shifted(w.file.content, w.out.blocksRead, skips))))
  }

  ghost predicate SendsData(w: World) {
    w.out.sent.One? && w.out.sent.dg.reply.Data?
  }

  /** The transfer is at block k: it is what would be resent and what the file
      position says, and no other block is sent. Its number is ahead by skips. */
  ghost predicate AtBlock(w: World, k: nat, skips: nat) {
    && OpenRead(w) && w.out.blocksRead == k >= 1
    && MAX_PAYLOAD * (k - 1) <= |w.file.content|
    && w.file.pos == Min(MAX_PAYLOAD * k, |w.file.content|)
    && w.st.lastData == Some(Shifted(w.file.content, k, skips))
    && w.st.blknum == (k + skips) % 0x1_0000
    && (SendsData(w) ==> SendsCurrent(w, skips))
  }

  /** Block k was acknowledged and there was no buffer for the next one: its number is
      counted already, its bytes are still to be read. */
  ghost predicate Stalled(w: World, k: nat, skips: nat) {
    && OpenRead(w) && w.out.blocksRead == k && w.st.lastData.None? && !SendsData(w)
    && w.file.pos == MAX_PAYLOAD * k <= |w.file.content|
    && w.st.blknum == (k + 1 + skips) % 0x1_0000
  }

  /** The block number is ahead of the blocks read by skips, no more and no less. */
  ghost predicate Ahead(w: World, skips: nat) {
    if OpenRead(w) then AtBlock(w, w.out.blocksRead, skips) || Stalled(w, w.out.blocksRead, skips)
    else !SendsData(w)
  }

  /** Number and blocks read agree. */
  ghost predicate Right(w: World) {
    Ahead(w, 0)
  }

  /** Buffers can be allocated and the card can be read. */
  predicate Kind(l: Luck) {
    l.dataAlloc && l.sendAlloc && l.copyOk && l.readOk
  }

  // --- Single calls ---------------------------------------------------------------

  /** What send_data makes of a session after block k, whatever fails. */
  ghost predicate Proceeds(w: World, w': World, l: Luck, k: nat, skips: nat) {
    && w'.file.content == w.file.content
    && if !l.dataAlloc then Stalled(w', k, skips)
       else if !l.readOk then !w'.st.handle && !SendsData(w')
       else AtBlock(w', k + 1, skips) && (SendsData(w') <==> l.sendAlloc && l.copyOk)
  }

  lemma SendDataReads(w: World, l: Luck, k: nat, skips: nat)
    requires OpenRead(w) && w.out.sent.Nothing? && w.out.blocksRead == k
    requires w.file.pos == MAX_PAYLOAD * k <= |w.file.content|
    requires w.st.blknum == (k + 1 + skips) % 0x1_0000
    ensures Proceeds(w, SendData(w, l), l, k, skips)
  {
    if l.dataAlloc && l.readOk {
      assert ReadAt(w.file, MAX_PAYLOAD) == BlockOf(w.file.content, k + 1);
    }
  }

  /** A good read request is answered with block 1, if there is a buffer for it. */
  lemma StartSessionReads(w: World, found: seq<Octet>, addr: Addr, port: Port, l: Luck)
    requires w.st.blknum == 1 && w.out.sent.Nothing?
    ensures var w' := StartSession(w, false, found, addr, port, l);
            Proceeds(w'.(file := Opened(found)), w', l, 0, 0)
  {
    var session := Called(
      World(w.st.(handle := true, addr := addr, port := port, modeWrite := false), w.out, Opened(found)),
      Open(false));
    SendDataReads(session, l, 0, 0);
  }

  /** If a read session has just begun it is at block 1 or has stalled before it. */
  ghost predicate Begins(w: World) {
    if OpenRead(w) then AtBlock(w, 1, 0) || Stalled(w, 0, 0) else !SendsData(w)
  }

  lemma AnswerRequestReads(w: World, parsed: TftpRequest.Parsed, write: bool, addr: Addr, port: Port, l: Luck)
    requires !w.st.handle && w.out.sent.Nothing?
    ensures Begins(AnswerRequest(w, parsed, write, addr, port, l))
  {
    if l.found.Some? {
      var reset := World(w.st.(blknum := 1), w.out.(timers := w.out.timers + 1), w.file);
      StartSessionReads(reset, l.found.value, addr, port, l);
    }
  }

  /** An ACK of the block that is held ends the transfer after the last block and
      otherwise brings the next one. */
  lemma AckReads(w: World, p: Packet, addr: Addr, port: Port, l: Luck, k: nat, skips: nat)
    requires AtBlock(w, k, skips) && Received(p) && SBuf(p, 1) == w.st.blknum && w.out.sent.Nothing?
    ensures var w' := RecvAck(w, p, addr, port, l);
            if k == BlockCount(w.file.content) then !w'.st.handle && w'.out.sent.Nothing? && w'.file == w.file
            else Proceeds(w, w', l, k, skips)
  {
    ShortBlockIsLast(w.file.content, k);
    if k != BlockCount(w.file.content) {
      NextBlock(w, l, k, skips);
    }
  }

  lemma NextBlock(w: World, l: Luck, k: nat, skips: nat)
    requires AtBlock(w, k, skips) && k != BlockCount(w.file.content) && w.out.sent.Nothing?
    ensures Proceeds(w, SendData(w.(st := w.st.(blknum := Next(w.st.blknum))), l), l, k, skips)
  {
    ShortBlockIsLast(w.file.content, k);
    SendDataReads(w.(st := w.st.(blknum := Next(w.st.blknum))), l, k, skips);
  }

  /** An ACK of a block for which there was no buffer: its number is passed over, and the
      bytes of the block that follow have a number one further ahead. */
  lemma StalledAckReads(w: World, p: Packet, addr: Addr, port: Port, l: Luck, k: nat, skips: nat)
    requires Stalled(w, k, skips) && Received(p) && SBuf(p, 1) == w.st.blknum && w.out.sent.Nothing?
    ensures Proceeds(w, RecvAck(w, p, addr, port, l), l, k, skips + 1)
  {
    SendDataReads(w.(st := w.st.(blknum := Next(w.st.blknum))), l, k, skips + 1);
  }

  // --- Steps -----------------------------------------------------------------------

  /** A packet from the peer that acknowledges the number the server waits for. */
  ghost predicate AcksCurrent(w: World, e: Event) {
    && e.Arrives? && Received(e.p) && !Foreign(w.st, e.addr, e.port) && OpenRead(w)
    && SBuf(e.p, 0) == ACK && SBuf(e.p, 1) == w.st.blknum
  }

  /** The packet acknowledges a block for which there was no buffer. */
  ghost predicate AcksUnread(w: World, e: Event) {
    AcksCurrent(w, e) && w.st.lastData.None?
  }

  lemma DispatchReads(w: World, p: Packet, addr: Addr, port: Port, l: Luck, skips: nat)
    requires Received(p) && Ahead(w, skips) && w.out.sent.Nothing?
    requires !(OpenRead(w) && SBuf(p, 0) == ACK && SBuf(p, 1) == w.st.blknum)
    ensures var w' := Dispatch(w, p, addr, port, l);
            if OpenRead(w) then Unmoved(w, w', skips) else Begins(w')
  {
    var opcode := SBuf(p, 0);
    if !w.st.handle && (opcode == RRQ || opcode == WRQ) {
      AnswerRequestReads(w, TftpRequest.Parse(Bytes(p)), opcode == WRQ, addr, port, l);
    }
  }

  /** The same block of the same file is held, and no other is sent. */
  ghost predicate Unmoved(w: World, w': World, skips: nat) {
    && OpenRead(w') && w'.file == w.file && w'.out.blocksRead == w.out.blocksRead
    && w'.st.lastData == w.st.lastData && w'.st.blknum == w.st.blknum
    && (SendsData(w') ==> SendsCurrent(w', skips) && w.st.lastData.Some?)
  }

  /** Only the ACK of the current number moves a read transfer on; the timeout ends it. */
  lemma StepMoves(w: World, e: Event, l: Luck, skips: nat)
    requires Inv(w) && Possible(w, e) && Ahead(w, skips) && OpenRead(w) && !AcksCurrent(w, e)
    ensures var w' := Step(w, e, l);
            if e.TimerFires? && Elapsed(w.st) == Patience(w.st) then !w'.st.handle && !SendsData(w')
            else Unmoved(w, w', skips)
  {
    if e.Arrives? && !Foreign(w.st, e.addr, e.port) {
      DispatchReads(Heeded(Allocated(Fresh(w))), e.p, e.addr, e.port, l, skips);
    }
  }

  lemma StepOpens(w: World, e: Event, l: Luck)
    requires Inv(w) && Possible(w, e) && !SendsData(w) && !OpenRead(w)
    ensures Begins(Step(w, e, l))
  {
    if e.Arrives? && !Foreign(w.st, e.addr, e.port) {
      DispatchReads(Heeded(Allocated(Fresh(w))), e.p, e.addr, e.port, l, 0);
    }
  }

  lemma UnmovedStaysAhead(w: World, w': World, skips: nat)
    requires Ahead(w, skips) && OpenRead(w) && Unmoved(w, w', skips)
    ensures Ahead(w', skips)
  {}

  /** The ACK of the current number brings the next block, a stall, or the end. */
  lemma StepAcks(w: World, e: Event, l: Luck, skips: nat)
    requires Inv(w) && Ahead(w, skips) && AcksCurrent(w, e)
    ensures var w', k := Step(w, e, l), w.out.blocksRead;
            if AcksUnread(w, e) then Proceeds(w, w', l, k, skips + 1)
            else if k == BlockCount(w.file.content) then !w'.st.handle && w'.out.sent.Nothing?
            else Proceeds(w, w', l, k, skips)
  {
    var heard, k := Heeded(Allocated(Fresh(w))), w.out.blocksRead;
    if AcksUnread(w, e) {
      StalledAckReads(heard, e.p, e.addr, e.port, l, k, skips);
    } else {
      AckReads(heard, e.p, e.addr, e.port, l, k, skips);
    }
  }

  // --- How far the numbers are ahead -----------------------------------------------------

  /** Each ACK of a block that was never read adds one, for the rest of the session. */
  ghost function SkipsAfter(w: World, e: Event, skips: nat, w': World): nat {
    if !OpenRead(w) || !OpenRead(w') then 0 else if AcksUnread(w, e) then skips + 1 else skips
  }

  lemma StepSkips(w: World, e: Event, l: Luck, skips: nat)
    requires Inv(w) && Possible(w, e) && Ahead(w, skips)
    ensures Ahead(Step(w, e, l), SkipsAfter(w, e, skips, Step(w, e, l)))
  {
    if !OpenRead(w) {
      StepOpens(w, e, l);
    } else if AcksCurrent(w, e) {
      StepAcks(w, e, l, skips);
    } else {
      StepMoves(w, e, l, skips);
      if Step(w, e, l).st.handle {
        UnmovedStaysAhead(w, Step(w, e, l), skips);
      }
    }
  }

  lemma FollowsSkips(w: World, e: (Event, Luck), w': World, skips: nat)
    requires Inv(w) && Follows(w, e, w') && Ahead(w, skips)
    ensures Ahead(w', SkipsAfter(w, e.0, skips, w'))
  {
    StepSkips(w, e.0, e.1, skips);
  }

  /** The ACKs of blocks never read, so far in the session that is open in state i. */
  ghost function Skips(ws: seq<World>, es: seq<(Event, Luck)>, i: nat): nat
    requires |ws| == |es| + 1 && i < |ws|
  {
    if i == 0 then 0 else SkipsAfter(ws[i - 1], es[i - 1].0, Skips(ws, es, i - 1), ws[i])
  }

  /** In every run, whatever fails and whoever sends what: the k-th block read in a session
      is sent and resent with exactly file bytes 512(k-1)..512k, under the number k plus
      the ACKs of blocks never read so far, modulo 65536. */
  lemma {:induction false} EveryRunCounts(ws: seq<World>, es: seq<(Event, Luck)>, i: nat)
    requires IsRun(ws, es) && i < |ws|
    ensures Ahead(ws[i], Skips(ws, es, i))
  {
    if i > 0 {
      EveryRunCounts(ws, es, i - 1);
      EveryRunKeeps(ws, es, i - 1);
      assert Follows(ws[i - 1], es[i - 1], ws[i - 1 + 1]);
      FollowsSkips(ws[i - 1], es[i - 1], ws[i], Skips(ws, es, i - 1));
    }
  }

  // --- What the peer sees --------------------------------------------------------------

  /** A DATA packet whose bytes belong to its number: it is some block of the file. */
  ghost predicate Belongs(content: seq<Octet>, b: Block) {
    exists j: nat :: j >= 1 && b == DataPacket(content, j)
  }

  ghost predicate Labelled(w: World) {
    SendsData(w) ==> Belongs(w.file.content, w.out.sent.dg.reply.block)
  }

  lemma UnshiftedBelongs(content: seq<Octet>, k: nat)
    requires k >= 1
    ensures Belongs(content, Shifted(content, k, 0))
  {
    assert Shifted(content, k, 0) == DataPacket(content, k);
  }

  /** The packets of every run: one is sent under its own number if and only if the file
      has the same bytes in a block of that number, so always without a skip. */
  lemma LabelledInRunIff(ws: seq<World>, es: seq<(Event, Luck)>, i: nat)
    requires IsRun(ws, es) && i < |ws|
    ensures SendsData(ws[i]) ==> OpenRead(ws[i]) && SendsCurrent(ws[i], Skips(ws, es, i))
    ensures Labelled(ws[i]) <==>
              (SendsData(ws[i]) ==> Belongs(ws[i].file.content, Shifted(ws[i].file.content, ws[i].out.blocksRead, Skips(ws, es, i))))
    ensures Skips(ws, es, i) == 0 ==> Labelled(ws[i])
  {
    EveryRunCounts(ws, es, i);
    if SendsData(ws[i]) {
      UnshiftedBelongs(ws[i].file.content, ws[i].out.blocksRead);
    }
  }

  /** One step of a transfer whose number and blocks read agree sends a packet under a
      wrong number if and only if it is the ACK of a block never read, a buffer can be had
      for the next one and everything else works, and the file has no block of that number
      with the same bytes. */
  lemma LabelledIff(w: World, e: Event, l: Luck)
    requires Inv(w) && Possible(w, e) && Right(w)
    ensures Labelled(Step(w, e, l)) <==>
              || !AcksUnread(w, e) || !Kind(l)
              || Belongs(w.file.content, Shifted(w.file.content, w.out.blocksRead + 1, 1))
  {
    StepSkips(w, e, l, 0);
    var w' := Step(w, e, l);
    if AcksCurrent(w, e) {
      StepAcks(w, e, l, 0);
    }
    if SendsData(w') && !AcksUnread(w, e) {
      UnshiftedBelongs(w'.file.content, w'.out.blocksRead);
    }
  }

  /** Number and blocks read stay in agreement if and only if no block is acknowledged
      that was never read, or the read then fails and ends the transfer. */
  lemma RightIff(w: World, e: Event, l: Luck)
    requires Inv(w) && Possible(w, e) && Right(w)
    ensures Right(Step(w, e, l)) <==> !AcksUnread(w, e) || (l.dataAlloc && !l.readOk)
  {
    StepSkips(w, e, l, 0);
    if AcksUnread(w, e) {
      StepAcks(w, e, l, 0);
    }
  }

  /** The first datagram that goes wrong: the number of block k + 2, the bytes of block k + 1. */
  lemma UnreadAckShifts(w: World, e: Event, l: Luck, k: nat)
    requires Inv(w) && Stalled(w, k, 0) && AcksUnread(w, e) && Kind(l)
    ensures Step(w, e, l).out.sent
         == One(Datagram(w.st.addr, w.st.port, Data(Block((k + 2) % 0x1_0000, BlockOf(w.file.content, k + 1)))))
  {
    StepAcks(w, e, l, 0);
  }

  /** In every run in which no block is acknowledged that was never read, with any failures
      of allocation and reading, every DATA packet sent or resent is block k, number modulo
      65536 and file bytes 512(k-1)..512k. */
  lemma {:induction false} EveryReadRun(ws: seq<World>, es: seq<(Event, Luck)>, i: nat)
    requires IsRun(ws, es) && i < |ws|
    requires forall n | 0 <= n < |es| :: !AcksUnread(ws[n], es[n].0)
    ensures Right(ws[i]) && Labelled(ws[i])
  {
    NoSkips(ws, es, i);
    EveryRunCounts(ws, es, i);
    LabelledInRunIff(ws, es, i);
  }

  lemma {:induction false} NoSkips(ws: seq<World>, es: seq<(Event, Luck)>, i: nat)
    requires |ws| == |es| + 1 && i < |ws| && forall n | 0 <= n < |es| :: !AcksUnread(ws[n], es[n].0)
    ensures Skips(ws, es, i) == 0
  {
    if i > 0 {
      NoSkips(ws, es, i - 1);
    }
  }
}
