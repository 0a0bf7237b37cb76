/** What the card holds once a write transfer is complete. */
module TftpCard {
  import opened Octets
  import opened TftpFile
  import opened TftpProtocol
  import opened TftpRead
  import opened TftpWrite
  import opened TftpHistory

  /** A new file laid over an old one: the old tail stays. */
  function Over(now: seq<Octet>, was: seq<Octet>): seq<Octet> {
    if |was| <= |now| then now else now + was[|now|..]
  }

  lemma OverIsExactIff(now: seq<Octet>, was: seq<Octet>)
    ensures Over(now, was) == now <==> |was| <= |now|
  {}

  lemma OverlaidIsOver(f: File)
    requires Overlaid(f)
    ensures f.content == Over(f.content[..f.pos], f.base)
  {}

  // --- Single moves --------------------------------------------------------------

  /** The client's packet ends a session: it was the session of the client, and the packet
      its next block. */
  lemma ClosingPacket(s: Sys, p: Packet, l: Luck)
    requires SysInv(s) && Enabled(s, UpArrives(p, l))
    requires s.w.st.handle && !Recv(Fresh(s.w), p, s.c.addr, s.c.port, l).st.handle
    ensures Mine(s) && s.up[0] == Stored(s.w) + 1
  {
    var n, w, c := s.up[0], Fresh(s.w), s.c;
    assert (s.downTo + s.up)[|s.downTo|] == n;
    if !Mine(s) {
      OthersRefused(w, p, c.addr, c.port, l);
    } else if n == 0 {
      RequestArrives(c, p);
      SecondRequestRefused(w, p, c.addr, c.port, l);
    } else if n == Stored(w) {
      BlockArrives(c, n, p);
      NextNumber(n);
      RepeatAcked(w, p, c.addr, c.port, l);
    }
  }

  /** The block that ends the session is stored after the blocks before it. */
  lemma ClosingBlock(w: World, w': World, c: Client, n: nat, p: Packet, l: Luck)
    requires Received(p) && |p.head| >= HEADER && n >= 1 && Bytes(p) == PacketBytes(c, n) && Fits(p, l)
    requires w.st.handle && w.st.modeWrite && w.st.addr == c.addr && w.st.port == c.port && w.st.blknum == n % 0x1_0000
    requires w.file.pos == MAX_PAYLOAD * (n - 1) <= |c.content| && Overlaid(w.file)
    requires w.file.content[..w.file.pos] == c.content[..w.file.pos]
    requires w' == Recv(Fresh(w), p, c.addr, c.port, l) && !w'.st.handle
    ensures Overlaid(w'.file) && w'.file.base == w.file.base && w'.file.content[..w'.file.pos] == c.content
  {
    BlockReceived(w, c, n, p, l);
    ShortBlockIsLast(c.content, n);
    StoredPrefixGrows(w.file, c.content, n);
    AfterWriteAppends(w.file, BlockOf(c.content, n));
  }

  lemma ClosingMove(s: Sys, p: Packet, l: Luck)
    requires SysInv(s) && Enabled(s, UpArrives(p, l)) && Fits(p, l)
    requires s.w.st.handle && !After(s, UpArrives(p, l)).w.st.handle
    ensures Mine(s)
    ensures var f := After(s, UpArrives(p, l)).w.file;
            Overlaid(f) && f.base == s.w.file.base && f.content[..f.pos] == s.c.content
  {
    ClosingPacket(s, p, l);
    ClosingBlock(s.w, Recv(Fresh(s.w), p, s.c.addr, s.c.port, l), s.c, s.up[0], p, l);
  }

  /** The client's session keeps the file it was opened with; it begins only with a
      request of the client that reaches a closed server. */
  ghost predicate KeepsOrOpens(s: Sys, m: Move, w': World) {
    if Mine(s) then w'.file.base == s.w.file.base
    else m.UpArrives? && !s.w.st.handle && m.l.found == Some(w'.file.base)
  }

  lemma ArrivalKeepsOrOpens(s: Sys, p: Packet, l: Luck)
    requires SysInv(s) && Enabled(s, UpArrives(p, l)) && Mine(After(s, UpArrives(p, l)))
    ensures KeepsOrOpens(s, UpArrives(p, l), After(s, UpArrives(p, l)).w)
  {
    var n, w, c := s.up[0], Fresh(s.w), s.c;
    assert (s.downTo + s.up)[|s.downTo|] == n;
    if Mine(s) {
      if n == 0 {
        RequestArrives(c, p);
        SecondRequestRefused(w, p, c.addr, c.port, l);
      } else {
        BlockArrives(c, n, p);
        NextNumber(n);
        if n == Stored(w) {
          RepeatAcked(w, p, c.addr, c.port, l);
        } else if Fits(p, l) {
          BlockStored(w, p, c.addr, c.port, l);
        } else {
          BlockFails(w, p, c.addr, c.port, l);
        }
      }
    } else if w.st.handle {
      OthersRefused(w, p, c.addr, c.port, l);
    } else if n == 0 {
      RequestOpens(w, c, p, l);
    } else {
      BlockArrives(c, n, p);
      LateBlockRefused(w, p, c.addr, c.port, l);
    }
  }

  lemma StrangerKeeps(s: Sys, p: Packet, addr: Addr, port: Port, l: Luck)
    requires SysInv(s) && Enabled(s, StrangerSends(p, addr, port, l)) && Mine(After(s, StrangerSends(p, addr, port, l)))
    ensures Mine(s) && After(s, StrangerSends(p, addr, port, l)).w.file == s.w.file
  {
    if Foreign(s.w.st, addr, port) {
      OthersRefused(Fresh(s.w), p, addr, port, l);
    } else {
      AnswersSenderOnly(Fresh(s.w), p, addr, port, l);
    }
  }

  lemma MoveKeepsOrOpens(s: Sys, m: Move)
    requires SysInv(s) && Enabled(s, m)
    ensures Mine(After(s, m)) ==> KeepsOrOpens(s, m, After(s, m).w)
  {
    if Mine(After(s, m)) {
      match m
      case UpArrives(p, l) => ArrivalKeepsOrOpens(s, p, l);
      case StrangerSends(p, addr, port, l) => StrangerKeeps(s, p, addr, port, l);
      case _ =>
    }
  }

  // --- Histories ------------------------------------------------------------------

  ghost predicate Linked(s: Sys, m: Move, s': Sys) {
    Mine(s') ==> KeepsOrOpens(s, m, s'.w)
  }

  lemma HistoryIsLinked(ss: seq<Sys>, ms: seq<Move>, n: nat)
    requires IsHistory(ss, ms) && n < |ms|
    ensures Linked(ss[n], ms[n], ss[n + 1])
  {
    EveryHistoryKeeps(ss, ms, n);
    MoveIsLinked(ss[n], ms[n], ss[n + 1]);
  }

  lemma MoveIsLinked(s: Sys, m: Move, s': Sys)
    requires SysInv(s) && Moves(s, m, s')
    ensures Linked(s, m, s')
  {
    MoveKeepsOrOpens(s, m);
  }

  lemma {:induction false} BackToOpening(ss: seq<Sys>, ms: seq<Move>, i: nat) returns (j: nat)
    requires |ss| == |ms| + 1 && i < |ss| && !Mine(ss[0]) && Mine(ss[i])
    requires forall n | 0 <= n < |ms| :: Linked(ss[n], ms[n], ss[n + 1])
    ensures j < i && ms[j].UpArrives? && !ss[j].w.st.handle && ms[j].l.found == Some(ss[i].w.file.base)
    ensures forall k | j < k <= i :: Mine(ss[k])
  {
    assert Linked(ss[i - 1], ms[i - 1], ss[i - 1 + 1]);
    if Mine(ss[i - 1]) {
      j := BackToOpening(ss, ms, i - 1);
    } else {
      j := i - 1;
    }
  }

  /** An open session of the client was opened by one of its packets, on the file that
      was found then, and has been its session ever since. */
  lemma SessionWasOpened(ss: seq<Sys>, ms: seq<Move>, i: nat) returns (j: nat)
    requires IsHistory(ss, ms) && i < |ss| && Mine(ss[i])
    ensures j < i && ms[j].UpArrives? && !ss[j].w.st.handle && ms[j].l.found == Some(ss[i].w.file.base)
    ensures forall k | j < k <= i :: Mine(ss[k])
  {
    forall n | 0 <= n < |ms| ensures Linked(ss[n], ms[n], ss[n + 1]) {
      HistoryIsLinked(ss, ms, n);
    }
    j := BackToOpening(ss, ms, i);
  }

  /** Step i - 1 is a packet of the client that closes the session. */
  ghost predicate Closes(ss: seq<Sys>, ms: seq<Move>, i: nat) {
    && IsHistory(ss, ms) && 0 < i < |ss| && ms[i - 1].UpArrives?
    && ss[i - 1].w.st.handle && !ss[i].w.st.handle
  }

  /** And its write did not fail. */
  ghost predicate Completes(ss: seq<Sys>, ms: seq<Move>, i: nat) {
    Closes(ss, ms, i) && Fits(ms[i - 1].p, ms[i - 1].l)
  }

  lemma PartOfBlock(f: File, content: seq<Octet>, n: nat, k: nat)
    requires n >= 1 && f.pos == MAX_PAYLOAD * (n - 1) <= |content| && Overlaid(f)
    requires f.content[..f.pos] == content[..f.pos] && k < |BlockOf(content, n)|
    ensures var g := AfterWrite(f, BlockOf(content, n)[..k]);
            Overlaid(g) && g.pos == f.pos + k < |content| && g.content[..g.pos] == content[..g.pos]
  {
    AfterWriteAppends(f, BlockOf(content, n)[..k]);
    assert content[..f.pos] + BlockOf(content, n)[..k] == content[..f.pos + k];
  }

  /** From s to s' a write of the client's block fails. */
  ghost predicate LosesWrite(s: Sys, s': Sys, content: seq<Octet>) {
    var f := s'.w.file;
    && f.pos < |content| && f.content[..f.pos] == content[..f.pos] && Overlaid(f)
    && s'.saved == s.saved
    && (s'.down == s.down || s'.down == s.down + [Error(ACCESS_VIOLATION)])
  }

  lemma FailingMove(s: Sys, m: Move, s': Sys)
    requires SysInv(s) && Moves(s, m, s') && m.UpArrives? && !Fits(m.p, m.l)
    requires s.w.st.handle && !s'.w.st.handle
    ensures LosesWrite(s, s', s.c.content)
  {
    ClosingPacket(s, m.p, m.l);
    BlockLost(s.w, s.c, s.up[0], m.p, m.l);
    PartOfBlock(s.w.file, s.c.content, s.up[0], m.l.room);
  }

  /** A write that fails ends the transfer with less than the client's file: its first
      bytes, then whatever the card held. The client is told so or nothing, never ACK. */
  lemma FailedWriteLeavesAPrefix(ss: seq<Sys>, ms: seq<Move>, i: nat)
    requires Closes(ss, ms, i) && !Fits(ms[i - 1].p, ms[i - 1].l)
    ensures LosesWrite(ss[i - 1], ss[i], ss[0].c.content)
  {
    EveryHistoryKeeps(ss, ms, i - 1);
    assert Moves(ss[i - 1], ms[i - 1], ss[i - 1 + 1]);
    FailingMove(ss[i - 1], ms[i - 1], ss[i]);
  }

  /** A completed transfer leaves the client's file laid over the file that was found
      when it began, j: the card holds exactly the client's file if and only if the old
      file was not longer. */
  lemma FinalFileIsExactIff(ss: seq<Sys>, ms: seq<Move>, i: nat) returns (j: nat)
    requires Completes(ss, ms, i)
    ensures j < i - 1 && ms[j].UpArrives? && ms[j].l.found.Some? && forall k | j < k < i :: Mine(ss[k])
    ensures var now, was := ss[0].c.content, ms[j].l.found.value;
      && ss[i].w.file.content == Over(now, was)
      && (ss[i].w.file.content == now <==> |was| <= |now|)
  {
    EveryHistoryKeeps(ss, ms, i - 1);
    assert Moves(ss[i - 1], ms[i - 1], ss[i - 1 + 1]);
    ClosingMove(ss[i - 1], ms[i - 1].p, ms[i - 1].l);
    j := SessionWasOpened(ss, ms, i - 1);
    OverlaidIsOver(ss[i].w.file);
    OverIsExactIff(ss[0].c.content, ms[j].l.found.value);
  }

  // --- A transfer of one block -----------------------------------------------------

  /** The client's packet n in one buffer. */
  function Whole(c: Client, n: nat): Packet {
    Packet(PacketBytes(c, n), [], [0, 0, 0, 0])
  }

  /** The file was is found, and nothing fails. */
  function Found(was: seq<Octet>): Luck {
    Luck(Some(was), true, MAX_PAYLOAD, true, true, true)
  }

  lemma WholeArrives(s: Sys, was: seq<Octet>)
    requires s.up != [] && ProperClient(s.c)
    ensures Enabled(s, UpArrives(Whole(s.c, s.up[0]), Found(was)))
  {
    var p := Whole(s.c, s.up[0]);
    assert Flatten(p.tail) == [] && Bytes(p) == PacketBytes(s.c, s.up[0]);
    assert |p.head| >= HEADER;
  }

  /** A history so far: where it began, where it is, and that was was found. */
  ghost predicate Trail(ss: seq<Sys>, ms: seq<Move>, s0: Sys, s: Sys, n: nat, was: seq<Octet>) {
    && IsHistory(ss, ms) && |ms| == n && ss[0] == s0 && ss[n] == s
    && forall j | 0 <= j < n && ms[j].UpArrives? :: ms[j].l == Found(was)
  }

  lemma GoesOn(ss: seq<Sys>, ms: seq<Move>, s0: Sys, s: Sys, n: nat, was: seq<Octet>, m: Move, s': Sys)
    requires Trail(ss, ms, s0, s, n, was) && Moves(s, m, s') && (m.UpArrives? ==> m.l == Found(was))
    ensures Trail(ss + [s'], ms + [m], s0, s', n + 1, was)
  {
    forall i | 0 <= i < n + 1 ensures Moves((ss + [s'])[i], (ms + [m])[i], (ss + [s'])[i + 1]) {
      if i < n {
        assert Moves(ss[i], ms[i], ss[i + 1]);
      }
    }
  }

  lemma Sending(s: Sys) returns (s': Sys)
    requires SysInv(s) && s.c.active && s.up == []
    ensures Moves(s, ClientSends, s') && s' == s.(up := [s.c.cur])
  {
    s' := After(s, ClientSends);
  }

  /** The request is answered by ACK 0. */
  lemma Opening(s: Sys, was: seq<Octet>) returns (s': Sys)
    requires SysInv(s) && s.up == [0] && s.down == [] && !s.w.st.handle
    ensures Moves(s, UpArrives(Whole(s.c, 0), Found(was)), s')
    ensures Mine(s') && s'.c == s.c && s'.up == [] && s'.down == [Ack(0)]
  {
    WholeArrives(s, was);
    s' := After(s, UpArrives(Whole(s.c, 0), Found(was)));
    RequestOpens(Fresh(s.w), s.c, Whole(s.c, 0), Found(was));
  }

  lemma Hearing(s: Sys) returns (s': Sys)
    requires SysInv(s) && s.down == [Ack(0)] && s.c.cur == 0 && s.c.active && BlockCount(s.c.content) == 1
    ensures Moves(s, DownArrives, s') && s'.w == s.w && s'.up == s.up && s'.c == s.c.(cur := 1)
  {
    s' := After(s, DownArrives);
  }

  /** The only block ends the session. */
  lemma Ending(s: Sys, was: seq<Octet>) returns (s': Sys)
    requires SysInv(s) && s.up == [1] && Mine(s) && Stored(s.w) == 0 && |s.c.content| < MAX_PAYLOAD
    ensures Moves(s, UpArrives(Whole(s.c, 1), Found(was)), s') && !s'.w.st.handle
    ensures Fits(Whole(s.c, 1), Found(was))
  {
    WholeArrives(s, was);
    s' := After(s, UpArrives(Whole(s.c, 1), Found(was)));
    BlockArrives(s.c, 1, Whole(s.c, 1));
    BlockStored(Fresh(s.w), Whole(s.c, 1), s.c.addr, s.c.port, Found(was));
  }

  /** The client is ready with a file of one block. */
  ghost predicate ReadyToWrite(w: World, c: Client) {
    && Initial(w) && ProperClient(c) && c.cur == 0 && c.active && !c.done && |c.content| < MAX_PAYLOAD
  }

  lemma AfterRequest(w: World, c: Client, was: seq<Octet>)
      returns (ss: seq<Sys>, ms: seq<Move>, s0: Sys, s: Sys)
    requires ReadyToWrite(w, c)
    ensures Trail(ss, ms, s0, s, 2, was) && s0.w == w && s0.c == c
    ensures Mine(s) && s.c == c && s.up == [] && s.down == [Ack(0)]
  {
    s0 := Sys(w, c, [], [], [], None);
    StartKeeps(s0);
    var s1 := Sending(s0);
    assert Trail([s0], [], s0, s0, 0, was);
    GoesOn([s0], [], s0, s0, 0, was, ClientSends, s1);
    ss, ms := [s0] + [s1], [] + [ClientSends];
    EveryHistoryKeeps(ss, ms, 1);
    s := Opening(s1, was);
    var m := UpArrives(Whole(c, 0), Found(was));
    GoesOn(ss, ms, s0, s1, 1, was, m, s);
    ss, ms := ss + [s], ms + [m];
  }

  lemma AfterFirstAck(w: World, c: Client, was: seq<Octet>)
      returns (ss: seq<Sys>, ms: seq<Move>, s0: Sys, s: Sys)
    requires ReadyToWrite(w, c)
    ensures Trail(ss, ms, s0, s, 4, was) && s0.w == w && s0.c == c
    ensures Mine(s) && s.c == c.(cur := 1) && s.up == [1] && SysInv(s)
  {
    var s2;
    ss, ms, s0, s2 := AfterRequest(w, c, was);
    EveryHistoryKeeps(ss, ms, 2);
    var s3 := Hearing(s2);
    GoesOn(ss, ms, s0, s2, 2, was, DownArrives, s3);
    ss, ms := ss + [s3], ms + [DownArrives];
    EveryHistoryKeeps(ss, ms, 3);
    s := Sending(s3);
    GoesOn(ss, ms, s0, s3, 3, was, ClientSends, s);
    ss, ms := ss + [s], ms + [ClientSends];
    EveryHistoryKeeps(ss, ms, 4);
  }

  /** The shortest complete history: request, ACK 0, one block. Every file of less than
      512 bytes over every old file can be the outcome. */
  lemma OneBlockHistory(w: World, c: Client, was: seq<Octet>) returns (ss: seq<Sys>, ms: seq<Move>)
    requires ReadyToWrite(w, c)
    ensures Completes(ss, ms, 5) && ss[0].w == w && ss[0].c == c
    ensures ss[5].w.file.content == Over(c.content, was)
  {
    var s0, s4;
    ss, ms, s0, s4 := AfterFirstAck(w, c, was);
    assert Stored(s4.w) == 0 by {
      NothingStoredYet(s4);
    }
    var s5 := Ending(s4, was);
    var m := UpArrives(Whole(s4.c, 1), Found(was));
    GoesOn(ss, ms, s0, s4, 4, was, m, s5);
    ss, ms := ss + [s5], ms + [m];
    var j := FinalFileIsExactIff(ss, ms, 5);
  }

  lemma NothingStoredYet(s: Sys)
    requires SysInv(s) && Mine(s) && |s.c.content| < MAX_PAYLOAD
    ensures Stored(s.w) == 0
  {}

  /** The failing input: a client that writes the one byte 9 over a file of three bytes
      completes its transfer, and the card holds 9 and two old bytes. */
  lemma LongerOldFileSurvives(w: World) returns (ss: seq<Sys>, ms: seq<Move>)
    requires Initial(w)
    ensures Completes(ss, ms, 5) && ss[0].c.content == [9] && ss[5].w.file.content == [9, 2, 3]
  {
    var c := Client(1, 2000, [97], [9], 0, true, false);
    ss, ms := OneBlockHistory(w, c, [1, 2, 3]);
    assert Over([9], [1, 2, 3]) == [9, 2, 3];
  }
}
