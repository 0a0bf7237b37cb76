/** Read sessions, with any failures of allocation, and what a peer must do for them to
    deliver the whole file. */
module TftpSession {
  import opened Octets
  import opened TftpFile
  import opened TftpProtocol
  import opened TftpRuns
  import opened TftpRead
  import TftpRequest

  /** The last block sent to the peer of the session that is open in w', where sent is
      the last one before this step. */
  ghost function SentAfter(wasOpen: bool, sent: nat, w': World): nat {
    if !OpenRead(w') then 0
    else if SendsData(w') then w'.out.blocksRead
    else if wasOpen then sent
    else 0
  }

  ghost function SentIn(ws: seq<World>, i: nat): nat
    requires i < |ws|
  {
    if i == 0 then SentAfter(false, 0, ws[0]) else SentAfter(OpenRead(ws[i - 1]), SentIn(ws, i - 1), ws[i])
  }

  /** All blocks are sent but perhaps the one that is held. */
  ghost predicate UpToDate(w: World, sent: nat) {
    OpenRead(w) ==> if w.st.lastData.Some? then w.out.blocksRead - 1 <= sent <= w.out.blocksRead
                    else sent == w.out.blocksRead
  }

  /** The number the server waits for is acknowledged only when its block was sent. */
  ghost predicate Fair(w: World, e: Event, sent: nat) {
    AcksCurrent(w, e) ==> w.st.lastData.Some? && sent == w.out.blocksRead
  }

  /** A peer that acknowledges only blocks it was sent, none of them 65535 or more blocks
      old. */
  ghost predicate Honest(w: World, e: Event, sent: nat) {
    e.Arrives? && Received(e.p) && !Foreign(w.st, e.addr, e.port) && OpenRead(w) && SBuf(e.p, 0) == ACK ==>
      exists j: nat :: 1 <= j <= sent && sent - j < 0xFFFF && SBuf(e.p, 1) == j % 0x1_0000
  }

  lemma HonestIsFair(w: World, e: Event, sent: nat)
    requires Right(w) && UpToDate(w, sent) && Honest(w, e, sent)
    ensures Fair(w, e, sent)
  {
    if AcksCurrent(w, e) {
      var j: nat :| 1 <= j <= sent && sent - j < 0xFFFF && SBuf(e.p, 1) == j % 0x1_0000;
      var k := if w.st.lastData.Some? then w.out.blocksRead else w.out.blocksRead + 1;
      assert j % 0x1_0000 == k % 0x1_0000 && k - 0x1_0000 < j;
      SameNumber(j, k);
    }
  }

  lemma SameNumber(j: nat, k: nat)
    requires j % 0x1_0000 == k % 0x1_0000 && j <= k < j + 0x1_0000
    ensures j == k
  {}

  lemma StepKeepsUp(w: World, e: Event, l: Luck, sent: nat)
    requires Inv(w) && Possible(w, e) && Right(w) && UpToDate(w, sent) && Fair(w, e, sent)
    ensures Right(Step(w, e, l)) && UpToDate(Step(w, e, l), SentAfter(OpenRead(w), sent, Step(w, e, l)))
  {
    RightIff(w, e, l);
    if !OpenRead(w) {
      StepOpens(w, e, l);
    } else if !AcksCurrent(w, e) {
      StepMoves(w, e, l, 0);
    } else {
      StepAcks(w, e, l, 0);
    }
  }

  lemma FollowsUp(w: World, e: (Event, Luck), w': World, sent: nat)
    requires Inv(w) && Follows(w, e, w') && Right(w) && UpToDate(w, sent) && Fair(w, e.0, sent)
    ensures Right(w') && UpToDate(w', SentAfter(OpenRead(w), sent, w'))
  {
    StepKeepsUp(w, e.0, e.1, sent);
  }

  /** With a peer that acknowledges only what it was sent, and any failures at all, every
      DATA datagram of every run is right, and never is a block passed over unsent. */
  lemma {:induction false} EveryHonestRun(ws: seq<World>, es: seq<(Event, Luck)>, i: nat)
    requires IsRun(ws, es) && i < |ws|
    requires forall n | 0 <= n < |es| :: Honest(ws[n], es[n].0, SentIn(ws, n))
    ensures Right(ws[i]) && UpToDate(ws[i], SentIn(ws, i))
  {
    if i > 0 {
      EveryHonestRun(ws, es, i - 1);
      EveryRunKeeps(ws, es, i - 1);
      HonestIsFair(ws[i - 1], es[i - 1].0, SentIn(ws, i - 1));
      FollowsUp(ws[i - 1], es[i - 1], ws[i], SentIn(ws, i - 1));
    }
  }

  /** The block that is held was sent. */
  ghost predicate Current(w: World, sent: nat) {
    Right(w) && (OpenRead(w) ==> w.st.lastData.Some? && sent == w.out.blocksRead)
  }

  lemma FollowsCurrent(w: World, e: (Event, Luck), w': World, sent: nat)
    requires Inv(w) && Follows(w, e, w') && Current(w, sent) && Kind(e.1)
    ensures Current(w', SentAfter(OpenRead(w), sent, w'))
  {
    RightIff(w, e.0, e.1);
    if !OpenRead(w) {
      OpensCurrent(w, e.0, e.1);
    } else if !AcksCurrent(w, e.0) {
      StepMoves(w, e.0, e.1, 0);
    } else {
      StepAcks(w, e.0, e.1, 0);
    }
  }

  lemma OpensCurrent(w: World, e: Event, l: Luck)
    requires Inv(w) && Possible(w, e) && Right(w) && !OpenRead(w) && Kind(l)
    ensures var w' := Step(w, e, l); OpenRead(w') ==> AtBlock(w', 1, 0) && SendsData(w')
  {
    StepOpens(w, e, l);
  }

  /** When buffers can always be allocated and the card read, the same holds for any peer. */
  lemma {:induction false} EveryKindRun(ws: seq<World>, es: seq<(Event, Luck)>, i: nat)
    requires IsRun(ws, es) && i < |ws|
    requires forall n | 0 <= n < |es| :: Kind(es[n].1)
    ensures Current(ws[i], SentIn(ws, i))
  {
    if i > 0 {
      EveryKindRun(ws, es, i - 1);
      EveryRunKeeps(ws, es, i - 1);
      FollowsCurrent(ws[i - 1], es[i - 1], ws[i], SentIn(ws, i - 1));
    }
  }

  // --- One session -------------------------------------------------------------------

  /** A stretch of a run inside one read session, from its first state on. */
  ghost predicate ReadSession(ws: seq<World>, es: seq<(Event, Luck)>) {
    && |ws| == |es| + 1 && Inv(ws[0]) && Begins(ws[0])
    && (forall i | 0 <= i < |es| :: Follows(ws[i], es[i], ws[i + 1]) && Fair(ws[i], es[i].0, SentIn(ws, i)))
    && (forall i | 0 <= i < |ws| :: OpenRead(ws[i]))
  }

  /** One of the first n states after the opening one sends block j. */
  ghost predicate Transmitted(ws: seq<World>, n: nat, j: nat) {
    exists i :: 0 <= i <= n && i < |ws| && SendsCurrent(ws[i], 0) && ws[i].out.blocksRead == j
  }

  /** The blocks sent in the first n states after the opening one are 1 to the last sent. */
  ghost predicate SentInOrder(ws: seq<World>, n: nat)
    requires n < |ws|
  {
    forall j: nat :: Transmitted(ws, n, j) <==> 1 <= j <= SentIn(ws, n)
  }

  /** What holds within a session after n steps. */
  ghost predicate InSession(w0: World, w: World, sent: nat) {
    Inv(w) && Right(w) && UpToDate(w, sent) && w.file.content == w0.file.content
  }

  lemma SessionStep(w0: World, w: World, e: (Event, Luck), w': World, sent: nat)
    requires InSession(w0, w, sent) && OpenRead(w) && OpenRead(w') && Follows(w, e, w') && Fair(w, e.0, sent)
    ensures InSession(w0, w', SentAfter(true, sent, w'))
    ensures SendsData(w') ==> SendsCurrent(w', 0) && sent <= w'.out.blocksRead <= sent + 1
  {
    StepKeeps(w, e.0, e.1);
    FollowsUp(w, e, w', sent);
    if !AcksCurrent(w, e.0) {
      StepMoves(w, e.0, e.1, 0);
    } else {
      StepAcks(w, e.0, e.1, 0);
    }
  }

  /** In a read session the file stays, and the blocks sent so far are exactly 1 to the
      last one sent, each with its own bytes. */
  lemma {:induction false} SessionSendsInOrder(ws: seq<World>, es: seq<(Event, Luck)>, n: nat)
    requires ReadSession(ws, es) && n <= |es|
    ensures InSession(ws[0], ws[n], SentIn(ws, n))
    ensures SentInOrder(ws, n)
  {
    if n == 0 {
      FirstBlock(ws);
    } else {
      SessionSendsInOrder(ws, es, n - 1);
      assert Follows(ws[n - 1], es[n - 1], ws[n - 1 + 1]) && OpenRead(ws[n - 1]) && OpenRead(ws[n]);
      SessionStep(ws[0], ws[n - 1], es[n - 1], ws[n], SentIn(ws, n - 1));
      OneMoreSent(ws, n);
    }
  }

  lemma FirstBlock(ws: seq<World>)
    requires |ws| > 0 && Begins(ws[0]) && OpenRead(ws[0])
    ensures Right(ws[0]) && UpToDate(ws[0], SentIn(ws, 0))
    ensures SentInOrder(ws, 0)
  {
    if SendsData(ws[0]) {
      assert SendsCurrent(ws[0], 0) && ws[0].out.blocksRead == 1;
      assert Transmitted(ws, 0, 1);
    }
  }

  lemma OneMoreSent(ws: seq<World>, n: nat)
    requires 1 <= n < |ws| && OpenRead(ws[n - 1]) && OpenRead(ws[n])
    requires SentInOrder(ws, n - 1)
    requires SendsData(ws[n]) ==> SendsCurrent(ws[n], 0) && SentIn(ws, n - 1) <= ws[n].out.blocksRead <= SentIn(ws, n - 1) + 1
    ensures SentInOrder(ws, n)
  {
    forall j: nat ensures Transmitted(ws, n, j) <==> 1 <= j <= SentIn(ws, n) {
      if Transmitted(ws, n - 1, j) {
        var i :| 0 <= i <= n - 1 && i < |ws| && SendsCurrent(ws[i], 0) && ws[i].out.blocksRead == j;
        assert Transmitted(ws, n, j);
      }
      if Transmitted(ws, n, j) && !(SendsCurrent(ws[n], 0) && ws[n].out.blocksRead == j) {
        assert Transmitted(ws, n - 1, j);
      }
      if SendsData(ws[n]) && ws[n].out.blocksRead == j {
        assert Transmitted(ws, n, j);
      }
    }
  }

  /** A transfer that a packet ends has sent exactly |content| / 512 + 1 different blocks,
      and the packet acknowledges the last; or a read has failed. */
  lemma EndByAckMeansAllSent(ws: seq<World>, es: seq<(Event, Luck)>, e: Event, l: Luck)
    requires ReadSession(ws, es) && Possible(ws[|es|], e) && Fair(ws[|es|], e, SentIn(ws, |es|))
    requires e.Arrives? && !Step(ws[|es|], e, l).st.handle
    ensures AcksCurrent(ws[|es|], e)
    ensures ws[|es|].out.blocksRead == BlockCount(ws[0].file.content) || (l.dataAlloc && !l.readOk)
    ensures ws[|es|].out.blocksRead == BlockCount(ws[0].file.content) ==>
              forall j: nat :: Transmitted(ws, |es|, j) <==> 1 <= j <= BlockCount(ws[0].file.content)
  {
    SessionSendsInOrder(ws, es, |es|);
    var w := ws[|es|];
    assert OpenRead(w);
    if AcksCurrent(w, e) {
      StepAcks(w, e, l, 0);
    } else {
      StepMoves(w, e, l, 0);
    }
  }

  // --- How a session begins ----------------------------------------------------------

  /** A good read request that reaches a closed server opens a session with its sender on
      the file that is found, and block 1 is sent to it at once if there is a buffer. */
  lemma ReadRequestOpens(w: World, p: Packet, addr: Addr, port: Port, l: Luck, name: seq<Octet>)
    requires Inv(w) && !w.st.handle && Received(p) && SBuf(p, 0) == 1 && l.found.Some?
    requires |name| <= 20 && TftpRequest.IsRequest(Bytes(p), name, [111, 99, 116, 101, 116])
    ensures var w' := Step(w, Arrives(p, addr, port), l);
      if l.dataAlloc && !l.readOk then !w'.st.handle
      else
        && OpenRead(w') && w'.st.addr == addr && w'.st.port == port && w'.file.content == l.found.value
        && (if l.dataAlloc then AtBlock(w', 1, 0) else Stalled(w', 0, 0))
        && (SendsData(w') <==> Kind(l))
  {
    TftpRequest.ParseEncoded(Bytes(p), name, [111, 99, 116, 101, 116]);
    var h := Heeded(Allocated(Fresh(w)));
    var reset := World(h.st.(blknum := 1), h.out.(timers := h.out.timers + 1), h.file);
    assert [111, 99, 116, 101, 116] + [0] == OCTET;
    assert Step(w, Arrives(p, addr, port), l) == Freed(StartSession(reset, false, l.found.value, addr, port, l));
    StartSessionReads(reset, l.found.value, addr, port, l);
    SessionOf(reset, l.found.value, addr, port, l);
  }

  lemma SessionOf(w: World, found: seq<Octet>, addr: Addr, port: Port, l: Luck)
    ensures var w' := StartSession(w, false, found, addr, port, l);
            w'.st.handle ==> w'.st.addr == addr && w'.st.port == port && w'.file.content == found
  {}
}
