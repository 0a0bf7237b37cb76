/** Every move of client, network, other hosts, timer and server keeps the transfer in
    lock-step; so does every history. */
module TftpHistory {
  import opened Octets
  import opened TftpFile
  import opened TftpProtocol
  import opened TftpRuns
  import opened TftpRead
  import opened TftpWrite

  // --- Sequences ----------------------------------------------------------

  lemma WireTakes(s: Sys)
    requires |s.down| == |s.downTo| && s.up != [] && Sorted(s.downTo + s.up)
    ensures (s.downTo + [s.up[0]]) + s.up[1..] == s.downTo + s.up
    ensures Sorted(s.downTo + s.up[1..])
    ensures Within(s.downTo, 0, s.up[0])
    ensures Within(s.up, s.up[0], s.up[|s.up| - 1])
  {
    var wire := s.downTo + s.up;
    assert wire[|s.downTo|] == s.up[0];
    forall i, j | 0 <= i < j < |s.downTo + s.up[1..]|
      ensures (s.downTo + s.up[1..])[i] <= (s.downTo + s.up[1..])[j]
    {
      var a, b := if i < |s.downTo| then i else i + 1, if j < |s.downTo| then j else j + 1;
      assert wire[a] <= wire[b];
    }
    forall i | 0 <= i < |s.downTo| ensures s.downTo[i] <= s.up[0] {
      assert wire[i] <= wire[|s.downTo|];
    }
    forall i | 0 <= i < |s.up| ensures s.up[0] <= s.up[i] <= s.up[|s.up| - 1] {
      assert wire[|s.downTo| + i] == s.up[i] && wire[|wire| - 1] == s.up[|s.up| - 1];
    }
  }

  lemma SortedWithout(s: seq<nat>, i: nat, lo: int, hi: int)
    requires Sorted(s) && Within(s, lo, hi) && i < |s|
    ensures Sorted(Without(s, i)) && Within(Without(s, i), lo, hi)
  {
    forall a, b | 0 <= a < b < |Without(s, i)| ensures Without(s, i)[a] <= Without(s, i)[b] {
      assert s[if a < i then a else a + 1] <= s[if b < i then b else b + 1];
    }
  }

  lemma SortedCopied(s: seq<nat>, i: nat, lo: int, hi: int)
    requires Sorted(s) && Within(s, lo, hi) && i < |s|
    ensures Sorted(Copied(s, i)) && Within(Copied(s, i), lo, hi)
  {
    forall a, b | 0 <= a < b < |Copied(s, i)| ensures Copied(s, i)[a] <= Copied(s, i)[b] {
      var x, y := if a <= i then a else a - 1, if b <= i then b else b - 1;
      assert Copied(s, i)[a] == s[x] && Copied(s, i)[b] == s[y];
      assert x == y || s[x] <= s[y];
    }
  }

  lemma WithoutRight(a: seq<nat>, b: seq<nat>, i: nat)
    requires i < |b|
    ensures a + Without(b, i) == Without(a + b, |a| + i)
  {}

  lemma CopiedRight(a: seq<nat>, b: seq<nat>, i: nat)
    requires i < |b|
    ensures a + Copied(b, i) == Copied(a + b, |a| + i)
  {}

  ghost predicate Among(s: Sys, r: Reply, n: nat) {
    exists i :: 0 <= i < |s.down| && i < |s.downTo| && s.down[i] == r && s.downTo[i] == n
  }

  /** Fewer or repeated answers say nothing new. */
  lemma AnswersAmong(s: Sys, s': Sys)
    requires Lockstep(s) && NoFalseSuccess(s) && |s'.down| == |s'.downTo|
    requires s'.c.content == s.c.content && s'.saved == s.saved && (s'.c.done ==> s'.saved.Some?)
    requires forall j | 0 <= j < |s'.down| :: Among(s, s'.down[j], s'.downTo[j])
    ensures NoFalseSuccess(s')
    ensures forall j | 0 <= j < |s'.down| && s'.down[j].Ack? :: s'.down[j].number == s'.downTo[j] % 0x1_0000
  {
    forall j | AckedLast(s', j) ensures s'.saved.Some? {
      assert Among(s, s'.down[j], s'.downTo[j]);
      var i :| 0 <= i < |s.down| && i < |s.downTo| && s.down[i] == s'.down[j] && s.downTo[i] == s'.downTo[j];
      assert AckedLast(s, i);
    }
    forall j | 0 <= j < |s'.down| && s'.down[j].Ack?
      ensures s'.down[j].number == s'.downTo[j] % 0x1_0000
    {
      assert Among(s, s'.down[j], s'.downTo[j]);
    }
  }

  // --- Every move keeps the invariant --------------------------------------

  lemma ClientSendsKeeps(s: Sys)
    requires SysInv(s) && s.c.active
    ensures SysInv(s.(up := s.up + [s.c.cur]))
  {
    var s' := s.(up := s.up + [s.c.cur]);
    assert s'.downTo + s'.up == (s.downTo + s.up) + [s.c.cur];
    AnswersSame(s, s');
  }

  lemma AnswersSame(s: Sys, s': Sys)
    requires Lockstep(s) && NoFalseSuccess(s)
    requires s'.down == s.down && s'.downTo == s.downTo && s'.c == s.c && s'.saved == s.saved
    ensures NoFalseSuccess(s')
  {
    forall i | AckedLast(s', i) ensures s'.saved.Some? {
      assert AckedLast(s, i);
    }
  }

  lemma UpLostKeeps(s: Sys, i: nat)
    requires SysInv(s) && i < |s.up|
    ensures SysInv(s.(up := Without(s.up, i)))
  {
    var s' := s.(up := Without(s.up, i));
    WithoutRight(s.downTo, s.up, i);
    SortedWithout(s.downTo + s.up, |s.downTo| + i, s.c.cur - 1, s.c.cur);
    AnswersSame(s, s');
  }

  lemma UpCopiedKeeps(s: Sys, i: nat)
    requires SysInv(s) && i < |s.up|
    ensures SysInv(s.(up := Copied(s.up, i)))
  {
    var s' := s.(up := Copied(s.up, i));
    CopiedRight(s.downTo, s.up, i);
    SortedCopied(s.downTo + s.up, |s.downTo| + i, s.c.cur - 1, s.c.cur);
    AnswersSame(s, s');
  }

  lemma DownLostKeeps(s: Sys, i: nat)
    requires SysInv(s) && i < |s.down|
    ensures SysInv(s.(down := Without(s.down, i), downTo := Without(s.downTo, i)))
  {
    var s' := s.(down := Without(s.down, i), downTo := Without(s.downTo, i));
    assert s'.downTo + s'.up == Without(s.downTo + s.up, i);
    SortedWithout(s.downTo + s.up, i, s.c.cur - 1, s.c.cur);
    forall j | 0 <= j < |s'.down| ensures Among(s, s'.down[j], s'.downTo[j]) {
      var k := if j < i then j else j + 1;
      assert s.down[k] == s'.down[j] && s.downTo[k] == s'.downTo[j];
    }
    AnswersAmong(s, s');
  }

  lemma DownCopiedKeeps(s: Sys, i: nat)
    requires SysInv(s) && i < |s.down|
    ensures SysInv(s.(down := Copied(s.down, i), downTo := Copied(s.downTo, i)))
  {
    var s' := s.(down := Copied(s.down, i), downTo := Copied(s.downTo, i));
    assert s'.downTo + s'.up == Copied(s.downTo + s.up, i);
    SortedCopied(s.downTo + s.up, i, s.c.cur - 1, s.c.cur);
    forall j | 0 <= j < |s'.down| ensures Among(s, s'.down[j], s'.downTo[j]) {
      var k := if j <= i then j else j - 1;
      assert s.down[k] == s'.down[j] && s.downTo[k] == s'.downTo[j];
    }
    AnswersAmong(s, s');
  }

  /** Numbers that differ by at most one are told apart by their low 16 bits. */
  lemma NearbyNumbers(a: nat, b: nat)
    requires a - 1 <= b <= a + 1 && a % 0x1_0000 == b % 0x1_0000
    ensures a == b
  {}

  /** The answer that moves the client is the one to its current packet, and
      then nothing older is in flight. */
  lemma AnswerIsCurrent(s: Sys)
    requires Lockstep(s) && s.down != []
    requires s.down[0].Ack? && s.down[0].number == s.c.cur % 0x1_0000
    ensures s.downTo[0] == s.c.cur
    ensures Within(s.downTo[1..] + s.up, s.c.cur, s.c.cur) && Within(s.up, s.c.cur, s.c.cur)
  {
    var wire := s.downTo + s.up;
    assert wire[0] == s.downTo[0];
    NearbyNumbers(s.c.cur, s.downTo[0]);
    forall i | 0 <= i < |s.downTo[1..] + s.up| ensures (s.downTo[1..] + s.up)[i] == s.c.cur {
      assert (s.downTo[1..] + s.up)[i] == wire[i + 1] && wire[0] <= wire[i + 1];
    }
    forall i | 0 <= i < |s.up| ensures s.up[i] == s.c.cur {
      assert s.up[i] == wire[|s.downTo| + i] && wire[0] <= wire[|s.downTo| + i];
    }
  }

  /** The oldest answer leaves the line. */
  lemma LineShifts(downTo: seq<nat>, up: seq<nat>, lo: int, hi: int)
    requires downTo != [] && Sorted(downTo + up) && Within(downTo + up, lo, hi)
    ensures Sorted(downTo[1..] + up) && Within(downTo[1..] + up, lo, hi)
  {
    var line, rest := downTo + up, downTo[1..] + up;
    forall i | 0 <= i < |rest| ensures rest[i] == line[i + 1] {}
  }

  lemma AnswersLeft(s: Sys)
    requires Lockstep(s) && NoFalseSuccess(s) && s.down != [] && (AfterAnswer(s).c.done ==> s.saved.Some?)
    ensures NoFalseSuccess(AfterAnswer(s))
    ensures var s' := AfterAnswer(s);
            forall j | 0 <= j < |s'.down| && s'.down[j].Ack? :: s'.down[j].number == s'.downTo[j] % 0x1_0000
  {
    var s' := AfterAnswer(s);
    forall j | 0 <= j < |s'.down| ensures Among(s, s'.down[j], s'.downTo[j]) {
      assert s.down[j + 1] == s'.down[j] && s.downTo[j + 1] == s'.downTo[j];
    }
    AnswersAmong(s, s');
  }

  lemma DownArrivesLockstep(s: Sys)
    requires Lockstep(s) && NoFalseSuccess(s) && s.down != []
    ensures Lockstep(AfterAnswer(s)) && NoFalseSuccess(AfterAnswer(s))
  {
    LineShifts(s.downTo, s.up, s.c.cur - 1, s.c.cur);
    if AfterAnswer(s).c != s.c && s.down[0].Ack? {
      AnswerIsCurrent(s);
      assert AfterAnswer(s).c.done && !s.c.done ==> AckedLast(s, 0);
    }
    AnswersLeft(s);
  }

  lemma DownArrivesKeeps(s: Sys)
    requires SysInv(s) && s.down != []
    ensures SysInv(AfterAnswer(s))
  {
    DownArrivesLockstep(s);
    if AfterAnswer(s).c.cur != s.c.cur {
      AnswerIsCurrent(s);
    }
  }

  /** A server step that answers the client nothing and leaves its session alone or closes it. */
  lemma UnansweredKeeps(s: Sys, w': World)
    requires SysInv(s) && Inv(w') && RealPeer(w') && ForClient(s.c, w'.out.sent) == None
    requires w'.st.handle && w'.st.addr == s.c.addr && w'.st.port == s.c.port ==>
               Mine(s) && w'.st.modeWrite == s.w.st.modeWrite && w'.st.blknum == s.w.st.blknum
               && w'.file == s.w.file
    ensures SysInv(ServerMoves(s, w', 0))
  {
    AnswersSame(s, ServerMoves(s, w', 0));
  }

  lemma TimerFiresKeeps(s: Sys, l: Luck)
    requires SysInv(s) && s.w.out.timers > 0
    ensures SysInv(After(s, Move.TimerFires(l)))
  {
    StepKeeps(s.w, Event.TimerFires, l);
    UnansweredKeeps(s, Step(s.w, Event.TimerFires, l));
  }

  lemma StrangerSendsKeeps(s: Sys, p: Packet, addr: Addr, port: Port, l: Luck)
    requires SysInv(s) && Enabled(s, StrangerSends(p, addr, port, l))
    ensures SysInv(After(s, StrangerSends(p, addr, port, l)))
  {
    var e := Arrives(p, addr, port);
    StepKeeps(s.w, e, l);
    if Foreign(s.w.st, addr, port) {
      OthersRefused(Fresh(s.w), p, addr, port, l);
    } else {
      AnswersSenderOnly(Fresh(s.w), p, addr, port, l);
    }
    UnansweredKeeps(s, Step(s.w, e, l));
  }

  /** The client's packet is answered by at most r; the session afterwards is described by the caller. */
  lemma AnsweredKeeps(s: Sys, w': World, r: Option<Reply>, saved: Option<seq<Octet>>)
    requires SysInv(s) && s.up != []
    requires Answers(w', s.c.addr, s.c.port, r)
    requires r.Some? && r.value.Ack? ==> r.value.number == s.up[0] % 0x1_0000
    requires saved.Some? ==> saved.value == s.c.content
    requires s.saved.Some? ==> saved.Some?
    requires r.Some? && r.value.Ack? && s.up[0] == BlockCount(s.c.content) ==> saved.Some?
    ensures var s' := ServerMoves(s, w', s.up[0]).(up := s.up[1..], saved := saved);
            && Lockstep(s') && NoFalseSuccess(s')
            && s'.downTo == s.downTo + if r.Some? then [s.up[0]] else []
  {
    var s' := ServerMoves(s, w', s.up[0]).(up := s.up[1..], saved := saved);
    WireTakes(s);
    assert s'.downTo + s'.up == if r.Some? then s.downTo + s.up else s.downTo + s.up[1..];
    forall i | 0 <= i < |s'.downTo + s'.up| ensures s.c.cur - 1 <= (s'.downTo + s'.up)[i] <= s.c.cur {
      if r.None? {
        assert (s'.downTo + s'.up)[i] == (s.downTo + s.up)[if i < |s.downTo| then i else i + 1];
      }
    }
    forall i | AckedLast(s', i) ensures saved.Some? {
      if i < |s.down| {
        assert AckedLast(s, i);
      }
    }
  }

  /** Where the server stands after storing k blocks. */
  ghost predicate Follower(s: Sys, w': World, k: nat) {
    && w'.st.handle && w'.st.addr == s.c.addr && w'.st.port == s.c.port && w'.st.modeWrite
    && w'.file.pos == MAX_PAYLOAD * k <= |s.c.content|
    && w'.file.content[..MAX_PAYLOAD * k] == s.c.content[..MAX_PAYLOAD * k]
    && Overlaid(w'.file)
    && w'.st.blknum == (k + 1) % 0x1_0000
  }

  lemma FollowerKeeps(s: Sys, w': World, r: Option<Reply>)
    requires SysInv(s) && s.up != [] && Inv(w') && RealPeer(w')
    requires Answers(w', s.c.addr, s.c.port, r)
    requires r.Some? && r.value.Ack? ==> r.value.number == s.up[0] % 0x1_0000
    requires r.Some? && r.value.Ack? && s.up[0] == BlockCount(s.c.content) ==> s.saved.Some?
    requires Follower(s, w', s.up[0])
    ensures SysInv(ServerMoves(s, w', s.up[0]).(up := s.up[1..]))
  {
    AnsweredKeeps(s, w', r, s.saved);
    AroundNext(s);
    var s' := ServerMoves(s, w', s.up[0]).(up := s.up[1..]);
    assert Stored(w') == s.up[0];
    assert Within(s'.downTo, 0, s.up[0]);
  }

  /** The packet that is delivered next stands between the answers and the other packets. */
  lemma AroundNext(s: Sys)
    requires Lockstep(s) && s.up != []
    ensures s.c.cur - 1 <= s.up[0] <= s.c.cur
    ensures Within(s.downTo, 0, s.up[0]) && Within(s.downTo + [s.up[0]], 0, s.up[0]) && Within(s.up[1..], s.up[0], s.c.cur)
  {
    WireTakes(s);
    var line := s.downTo + s.up;
    assert line[|s.downTo|] == s.up[0] && line[|line| - 1] == s.up[|s.up| - 1];
  }

  /** Refused packets leave the session where it was. */
  lemma RefusedKeeps(s: Sys, w': World)
    requires SysInv(s) && s.up != [] && Inv(w')
    requires Refused(s.w, w', s.c.addr, s.c.port)
    requires Mine(s) ==> s.up[0] <= Stored(s.w)
    ensures SysInv(ServerMoves(s, w', s.up[0]).(up := s.up[1..]))
  {
    AnsweredKeeps(s, w', if w'.out.sent.Nothing? then None else Some(w'.out.sent.dg.reply), s.saved);
  }

  /** Storing block n after the n - 1 before it. */
  lemma StoredPrefixGrows(f: File, content: seq<Octet>, n: nat)
    requires n >= 1 && f.pos == MAX_PAYLOAD * (n - 1) <= |content| && Overlaid(f)
    requires f.content[..f.pos] == content[..f.pos]
    ensures var g := AfterWrite(f, BlockOf(content, n));
            && Overlaid(g) && g.pos == Min(MAX_PAYLOAD * n, |content|)
            && g.content[..g.pos] == content[..g.pos]
  {
    AfterWriteAppends(f, BlockOf(content, n));
    var end := Min(MAX_PAYLOAD * n, |content|);
    assert content[..f.pos] + BlockOf(content, n) == content[..end];
  }

  lemma StoreKeeps(s: Sys, p: Packet, l: Luck)
    requires SysInv(s) && Enabled(s, UpArrives(p, l)) && Mine(s) && s.up[0] == Stored(s.w) + 1
    ensures SysInv(After(s, UpArrives(p, l)))
  {
    if Fits(p, l) {
      FittingKeeps(s, p, l);
    } else {
      FailingKeeps(s, p, l);
    }
  }

  lemma FittingKeeps(s: Sys, p: Packet, l: Luck)
    requires SysInv(s) && Enabled(s, UpArrives(p, l)) && Mine(s) && s.up[0] == Stored(s.w) + 1 && Fits(p, l)
    ensures SysInv(Delivered(s, Recv(Fresh(s.w), p, s.c.addr, s.c.port, l), true))
  {
    RecvKeeps(Fresh(s.w), p, s.c.addr, s.c.port, l);
    BlockReceived(s.w, s.c, s.up[0], p, l);
    BlockKeeps(s, Recv(Fresh(s.w), p, s.c.addr, s.c.port, l), if l.sendAlloc then Some(Ack(s.up[0] % 0x1_0000)) else None);
  }

  lemma FailingKeeps(s: Sys, p: Packet, l: Luck)
    requires SysInv(s) && Enabled(s, UpArrives(p, l)) && Mine(s) && s.up[0] == Stored(s.w) + 1 && !Fits(p, l)
    ensures SysInv(Delivered(s, Recv(Fresh(s.w), p, s.c.addr, s.c.port, l), false))
  {
    RecvKeeps(Fresh(s.w), p, s.c.addr, s.c.port, l);
    BlockLost(s.w, s.c, s.up[0], p, l);
    ClosedKeeps(s, Recv(Fresh(s.w), p, s.c.addr, s.c.port, l), if l.sendAlloc then Some(Error(ACCESS_VIOLATION)) else None);
  }

  /** The server closed after a write that failed: nothing is acknowledged or saved. */
  lemma ClosedKeeps(s: Sys, w': World, r: Option<Reply>)
    requires SysInv(s) && s.up != [] && Inv(w') && !w'.st.handle
    requires Answers(w', s.c.addr, s.c.port, r) && (r.Some? ==> r.value.Error?)
    ensures SysInv(Delivered(s, w', false))
  {
    AnsweredKeeps(s, w', r, s.saved);
  }

  /** The next block of the client, as the server loses it. */
  lemma BlockLost(w: World, c: Client, n: nat, p: Packet, l: Luck)
    requires Received(p) && |p.head| >= HEADER && n >= 1 && Bytes(p) == PacketBytes(c, n) && !Fits(p, l)
    requires w.st.handle && w.st.modeWrite && w.st.addr == c.addr && w.st.port == c.port && w.st.blknum == n % 0x1_0000
    ensures var w' := Recv(Fresh(w), p, c.addr, c.port, l);
      && !w'.st.handle && l.room < |BlockOf(c.content, n)|
      && w'.file == AfterWrite(w.file, BlockOf(c.content, n)[..l.room])
      && Answers(w', c.addr, c.port, if l.sendAlloc then Some(Error(ACCESS_VIOLATION)) else None)
  {
    BlockArrives(c, n, p);
    BlockFails(Fresh(w), p, c.addr, c.port, l);
  }

  /** The next block of the client, as the server takes it. */
  lemma BlockReceived(w: World, c: Client, n: nat, p: Packet, l: Luck)
    requires Received(p) && |p.head| >= HEADER && n >= 1 && Bytes(p) == PacketBytes(c, n) && Fits(p, l)
    requires w.st.handle && w.st.modeWrite && w.st.addr == c.addr && w.st.port == c.port && w.st.blknum == n % 0x1_0000
    ensures var w' := Recv(Fresh(w), p, c.addr, c.port, l);
      && Answers(w', c.addr, c.port, if l.sendAlloc then Some(Ack(n % 0x1_0000)) else None)
      && w'.file == AfterWrite(w.file, BlockOf(c.content, n))
      && if |BlockOf(c.content, n)| < MAX_PAYLOAD then !w'.st.handle
         else w'.st.handle && w'.st.addr == c.addr && w'.st.port == c.port && w'.st.modeWrite
              && w'.st.blknum == Next(w.st.blknum)
  {
    BlockArrives(c, n, p);
    BlockStored(Fresh(w), p, c.addr, c.port, l);
  }

  /** The server after storing block n of the client, whatever it is told about it. */
  lemma BlockKeeps(s: Sys, w': World, r: Option<Reply>)
    requires SysInv(s) && s.up != [] && Mine(s) && s.up[0] == Stored(s.w) + 1 && Inv(w')
    requires Answers(w', s.c.addr, s.c.port, r)
    requires r.Some? ==> r.value == Ack(s.up[0] % 0x1_0000)
    requires w'.file == AfterWrite(s.w.file, BlockOf(s.c.content, s.up[0]))
    requires if |BlockOf(s.c.content, s.up[0])| < MAX_PAYLOAD then !w'.st.handle
             else w'.st.handle && w'.st.addr == s.c.addr && w'.st.port == s.c.port && w'.st.modeWrite
                  && w'.st.blknum == Next(s.w.st.blknum)
    ensures SysInv(Delivered(s, w', true))
  {
    var n, content := s.up[0], s.c.content;
    ShortBlockIsLast(content, n);
    StoredPrefixGrows(s.w.file, content, n);
    if n == BlockCount(content) {
      assert w'.file.content[..w'.file.pos] == content;
      LastBlockKeeps(s, w', r);
    } else {
      NextNumber(n);
      FollowerKeeps(s, w', r);
    }
  }

  lemma LastBlockKeeps(s: Sys, w': World, r: Option<Reply>)
    requires SysInv(s) && s.up != [] && Inv(w') && !w'.st.handle
    requires Answers(w', s.c.addr, s.c.port, r)
    requires r.Some? && r.value.Ack? ==> r.value.number == s.up[0] % 0x1_0000
    ensures SysInv(ServerMoves(s, w', s.up[0]).(up := s.up[1..], saved := Some(s.c.content)))
  {
    AnsweredKeeps(s, w', r, Some(s.c.content));
  }

  lemma NextNumber(n: nat)
    ensures Next(n % 0x1_0000) == (n + 1) % 0x1_0000
  {}

  lemma RepeatKeeps(s: Sys, p: Packet, l: Luck)
    requires SysInv(s) && Enabled(s, UpArrives(p, l)) && Mine(s) && s.up[0] == Stored(s.w) >= 1
    ensures SysInv(After(s, UpArrives(p, l)))
  {
    var n, w, c := s.up[0], Fresh(s.w), s.c;
    BlockArrives(c, n, p);
    NextNumber(n);
    RepeatAcked(w, p, c.addr, c.port, l);
    RecvKeeps(w, p, c.addr, c.port, l);
    FollowerKeeps(s, Recv(w, p, c.addr, c.port, l), if l.sendAlloc then Some(Ack(n % 0x1_0000)) else None);
  }

  lemma OpenKeeps(s: Sys, p: Packet, l: Luck)
    requires SysInv(s) && Enabled(s, UpArrives(p, l)) && !s.w.st.handle && s.up[0] == 0
    ensures SysInv(After(s, UpArrives(p, l)))
  {
    var w, c := Fresh(s.w), s.c;
    var w' := Recv(w, p, c.addr, c.port, l);
    RequestOpens(w, c, p, l);
    RecvKeeps(w, p, c.addr, c.port, l);
    if l.found.None? {
      RefusedKeeps(s, w');
    } else {
      assert w'.file.content[..0] == c.content[..0] == [];
      FollowerKeeps(s, w', if l.sendAlloc then Some(Ack(0)) else None);
    }
  }

  lemma UpArrivesKeeps(s: Sys, p: Packet, l: Luck)
    requires SysInv(s) && Enabled(s, UpArrives(p, l))
    ensures SysInv(After(s, UpArrives(p, l)))
  {
    var n, w, c := s.up[0], Fresh(s.w), s.c;
    var w' := Recv(w, p, c.addr, c.port, l);
    assert (s.downTo + s.up)[|s.downTo|] == n;
    RecvKeeps(w, p, c.addr, c.port, l);
    if Mine(s) {
      if n == 0 {
        RequestArrives(c, p);
        SecondRequestRefused(w, p, c.addr, c.port, l);
        RefusedKeeps(s, w');
      } else if n == Stored(w) {
        RepeatKeeps(s, p, l);
      } else {
        StoreKeeps(s, p, l);
      }
    } else if w.st.handle {
      OthersRefused(w, p, c.addr, c.port, l);
      RefusedKeeps(s, w');
    } else if n == 0 {
      OpenKeeps(s, p, l);
    } else {
      BlockArrives(c, n, p);
      LateBlockRefused(w, p, c.addr, c.port, l);
      RefusedKeeps(s, w');
    }
  }

  lemma AfterKeeps(s: Sys, m: Move)
    requires SysInv(s) && Enabled(s, m)
    ensures SysInv(After(s, m))
  {
    match m
    case ClientSends => ClientSendsKeeps(s);
    case UpArrives(p, l) => UpArrivesKeeps(s, p, l);
    case UpLost(i) => UpLostKeeps(s, i);
    case UpCopied(i) => UpCopiedKeeps(s, i);
    case DownArrives => DownArrivesKeeps(s);
    case DownLost(i) => DownLostKeeps(s, i);
    case DownCopied(i) => DownCopiedKeeps(s, i);
    case TimerFires(l) => TimerFiresKeeps(s, l);
    case StrangerSends(p, addr, port, l) => StrangerSendsKeeps(s, p, addr, port, l);
  }

  // --- Whole runs -----------------------------------------------------------

  ghost predicate IsHistory(ss: seq<Sys>, ms: seq<Move>) {
    && |ss| == |ms| + 1 && Start(ss[0])
    && forall i | 0 <= i < |ms| :: Moves(ss[i], ms[i], ss[i + 1])
  }

  ghost predicate Moves(s: Sys, m: Move, s': Sys) {
    |s.down| == |s.downTo| && Enabled(s, m) && s' == After(s, m)
  }

  ghost predicate StaysGood(s: Sys, s': Sys) {
    SysInv(s) ==> SysInv(s') && s'.c.content == s.c.content
  }

  lemma {:induction false} EveryHistoryKeeps(ss: seq<Sys>, ms: seq<Move>, i: nat)
    requires IsHistory(ss, ms) && i < |ss|
    ensures SysInv(ss[i]) && ss[i].c.content == ss[0].c.content
  {
    StartKeeps(ss[0]);
    forall n | 0 <= n < |ms| ensures StaysGood(ss[n], ss[n + 1]) {
      assert Moves(ss[n], ms[n], ss[n + 1]);
      if SysInv(ss[n]) {
        MoveKeeps(ss[n], ms[n], ss[n + 1]);
      }
    }
    StaysGoodThroughout(ss, i);
  }

  lemma {:induction false} StaysGoodThroughout(ss: seq<Sys>, i: nat)
    requires i < |ss| && SysInv(ss[0])
    requires forall n | 0 <= n < |ss| - 1 :: StaysGood(ss[n], ss[n + 1])
    ensures SysInv(ss[i]) && ss[i].c.content == ss[0].c.content
  {
    if i > 0 {
      StaysGoodThroughout(ss, i - 1);
      assert StaysGood(ss[i - 1], ss[i - 1 + 1]);
    }
  }

  lemma MoveKeeps(s: Sys, m: Move, s': Sys)
    requires SysInv(s) && Moves(s, m, s')
    ensures SysInv(s') && s'.c.content == s.c.content
  {
    AfterKeeps(s, m);
    FileStays(s, m);
  }

  lemma StartKeeps(s: Sys)
    requires Start(s)
    ensures SysInv(s)
  {
    StartWorld(s);
    StartWire(s);
  }

  lemma StartWorld(s: Sys)
    requires Start(s)
    ensures Inv(s.w) && RealPeer(s.w) && InStep(s) && NoFalseSuccess(s)
  {
    InitialKeeps(s.w);
  }

  lemma StartWire(s: Sys)
    requires Start(s)
    ensures Lockstep(s)
  {
    assert s.downTo + s.up == [];
  }

  lemma FileStays(s: Sys, m: Move)
    requires Enabled(s, m) && |s.down| == |s.downTo|
    ensures After(s, m).c.content == s.c.content
  {}

  /** At every point of every history: the bytes a session of the client has
      written are the first blocks of its file, each once and in order, however
      often the block number has wrapped; the card below them is as it was. */
  lemma WrittenIsAlwaysAPrefix(ss: seq<Sys>, ms: seq<Move>, i: nat)
    requires IsHistory(ss, ms) && i < |ss| && Mine(ss[i])
    ensures var f, file := ss[i].w.file, ss[0].c.content;
            && f.pos % MAX_PAYLOAD == 0 && f.pos <= |file|
            && f.content[..f.pos] == file[..f.pos]
            && Overlaid(f)
  {
    EveryHistoryKeeps(ss, ms, i);
    assert ss[i].w.file.pos == MAX_PAYLOAD * Stored(ss[i].w);
  }

  /** When the client believes the transfer complete, and whenever one of its own packets
      closes the session without a failed write, the card has stored exactly its file. */
  lemma CompletionMeansStored(ss: seq<Sys>, ms: seq<Move>, i: nat)
    requires IsHistory(ss, ms) && i < |ss|
    ensures ss[i].c.done ==> ss[i].saved == Some(ss[0].c.content)
    ensures i > 0 && ms[i - 1].UpArrives? && Fits(ms[i - 1].p, ms[i - 1].l) && ss[i - 1].w.st.handle && !ss[i].w.st.handle ==>
              ss[i].w.file.content[..ss[i].w.file.pos] == ss[0].c.content
  {
    EveryHistoryKeeps(ss, ms, i);
    if i > 0 {
      assert Moves(ss[i - 1], ms[i - 1], ss[i]);
    }
  }
}
