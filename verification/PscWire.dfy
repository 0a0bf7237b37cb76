/** What each client's connection carries, under every interleaving of broadcasts
    and single sends. */
module PscWire {
  import opened Octets
  import opened PscServer

  /** The items sent whole, one after the other. */
  function FramesOf(done: seq<Item>): seq<Octet> {
    if done == [] then [] else FramesOf(done[..|done| - 1]) + done[|done| - 1].load.bytes
  }

  lemma FramesOfOne(done: seq<Item>, item: Item)
    ensures FramesOf(done + [item]) == FramesOf(done) + item.load.bytes
  {
    assert (done + [item])[..|done|] == done;
  }

  /** How many of the first n items are broadcasts. */
  function Count(done: seq<Item>, n: nat): nat
    requires n <= |done|
  {
    if n == 0 then 0 else Count(done, n - 1) + if done[n - 1].broadcast == ONE_CLIENT then 0 else 1
  }

  lemma {:induction false} CountExtends(done: seq<Item>, item: Item, n: nat)
    requires n <= |done|
    ensures Count(done + [item], n) == Count(done, n)
  {
    if n > 0 {
      CountExtends(done, item, n - 1);
    }
  }

  /** Item j, if a broadcast, is the one that follows the broadcasts before it. */
  ghost predicate Turn(done: seq<Item>, first: nat, log: seq<Load>, j: int)
    requires 0 <= j < |done|
  {
    done[j].broadcast != ONE_CLIENT ==>
      && done[j].broadcast == first + Count(done, j) < |log|
      && done[j].load == log[done[j].broadcast]
  }

  /** The broadcasts among the items are consecutive ones of the log, from first on. */
  ghost predicate InOrder(done: seq<Item>, first: nat, log: seq<Load>) {
    forall j | 0 <= j < |done| :: Turn(done, first, log, j)
  }

  ghost predicate Targets(s: State, id: nat) {
    XferOf(s.lock).Some? && XferOf(s.lock).value.target == Conn(id)
  }

  /** The message that is being written to the connection or that an error cut off. */
  ghost function Partial(s: State, id: nat): Option<Xfer>
    requires id in s.peers
  {
    if Targets(s, id) then XferOf(s.lock) else s.peers[id].cut
  }

  ghost predicate Fits(x: Xfer) {
    x.sofar <= |x.item.load.bytes|
  }

  ghost function Written(x: Option<Xfer>): seq<Octet>
    requires x.Some? ==> Fits(x.value)
  {
    if x.None? then [] else Slice(x.value.item.load.bytes, 0, x.value.sofar)
  }

  /** The bytes of a connection: whole frames, then part of at most one. */
  ghost predicate Carried(s: State, id: nat)
    requires id in s.peers
  {
    var p := s.peers[id];
    && (Partial(s, id).Some? ==> Fits(Partial(s, id).value))
    && p.bytes == FramesOf(p.done) + Written(Partial(s, id))
  }

  /** After a cut the connection is in no slot, so nothing more can be written. */
  ghost predicate CutOff(s: State, id: nat)
    requires id in s.peers
  {
    s.peers[id].cut.Some? ==>
      && s.peers[id].cut.value.sofar < |s.peers[id].cut.value.item.load.bytes|
      && !Listed(s, id) && !Targets(s, id)
  }

  ghost predicate Listed(s: State, id: nat) {
    exists i :: InSlot(s, i, id)
  }

  ghost predicate InSlot(s: State, i: int, id: nat) {
    0 <= i < |s.slots| && s.slots[i].sock == Conn(id)
  }

  ghost predicate Ordered(s: State, id: nat)
    requires id in s.peers
  {
    var p := s.peers[id];
    && InOrder(p.done, p.first, s.log)
    && p.first + Count(p.done, |p.done|) <= |s.log|
    && (forall i | InSlot(s, i, id) :: p.first + Count(p.done, |p.done|) == Passed(s, i, id))
  }

  /** A broadcast that was cut off is the one that follows those sent whole. */
  ghost predicate CutInTurn(s: State, id: nat)
    requires id in s.peers
  {
    var p := s.peers[id];
    p.cut.Some? && p.cut.value.item.broadcast != ONE_CLIENT ==>
      && p.cut.value.item.broadcast == p.first + Count(p.done, |p.done|) < |s.log|
      && p.cut.value.item.load == s.log[p.cut.value.item.broadcast]
  }

  ghost predicate Untouched(s: State, id: nat)
    requires id in s.peers
  {
    s.acc.Holding? && s.acc.id == id ==> s.peers[id].done == [] && s.peers[id].cut == None
  }

  ghost predicate PeerOk(s: State, id: nat)
    requires id in s.peers
  {
    Carried(s, id) && CutOff(s, id) && Ordered(s, id) && CutInTurn(s, id) && Untouched(s, id)
  }

  ghost predicate Inv(s: State) {
    Base(s) && forall id | id in s.peers :: PeerOk(s, id)
  }

  /** A connection is in at most one slot, and only while its owner keeps it there. */
  lemma OneSlot(s: State, i: int, j: int, id: nat)
    requires Base(s) && InSlot(s, i, id) && InSlot(s, j, id)
    ensures i == j && id in s.peers
  {}

  /** Nothing about the connection changed. */
  lemma SamePeer(s: State, s': State, id: nat)
    requires id in s.peers && id in s'.peers && PeerOk(s, id)
    requires var p, p' := s.peers[id], s'.peers[id];
             p'.bytes == p.bytes && p'.done == p.done && p'.cut == p.cut && p'.first == p.first
    requires Targets(s, id) == Targets(s', id) && (Targets(s, id) ==> XferOf(s'.lock) == XferOf(s.lock))
    requires |s.log| <= |s'.log| && forall n | 0 <= n < |s.log| :: s'.log[n] == s.log[n]
    requires forall i | InSlot(s', i, id) :: InSlot(s, i, id) && Passed(s', i, id) == Passed(s, i, id)
    requires s'.acc.Holding? && s'.acc.id == id ==> s.acc == s'.acc
    ensures PeerOk(s', id)
  {
    assert Carried(s', id);
    assert CutOff(s', id) by {
      if Listed(s', id) {
        var i :| InSlot(s', i, id);
        assert InSlot(s, i, id);
      }
    }
    var p := s.peers[id];
    forall j | 0 <= j < |p.done| ensures Turn(p.done, p.first, s'.log, j) {
      assert Turn(p.done, p.first, s.log, j);
    }
  }

  // --- Every step keeps the invariant, connection by connection -------------

  lemma AcceptPeer(s: State, id: nat, c: nat)
    requires Inv(s) && Enabled(s, Accept(id)) && c in Next(s, Accept(id)).peers
    ensures PeerOk(Next(s, Accept(id)), c)
  {
    var s' := Next(s, Accept(id));
    if c in s.peers {
      AcceptOther(s, id, c);
    } else {
      forall i ensures !InSlot(s', i, c) {
        assert !InSlot(s, i, c);
      }
      NewPeer(s', c);
    }
  }

  lemma NewPeer(s: State, c: nat)
    requires c in s.peers && s.peers[c] == Peer([], [], None, 0, []) && !Targets(s, c) && forall i :: !InSlot(s, i, c)
    ensures PeerOk(s, c)
  {}

  lemma AcceptOther(s: State, id: nat, c: nat)
    requires Inv(s) && Enabled(s, Accept(id)) && c in s.peers
    ensures c in Next(s, Accept(id)).peers && PeerOk(Next(s, Accept(id)), c)
  {
    SamePeer(s, Next(s, Accept(id)), c);
  }

  lemma StoreSockPeer(s: State, c: nat)
    requires Inv(s) && Enabled(s, StoreSock) && c in s.peers
    ensures PeerOk(Next(s, StoreSock), c)
  {
    if c != s.acc.id {
      StoreSockOther(s, c);
    } else {
      StoredPeer(s, Next(s, StoreSock), c);
    }
  }

  lemma StoreSockOther(s: State, c: nat)
    requires Inv(s) && Enabled(s, StoreSock) && c in s.peers && c != s.acc.id
    ensures PeerOk(Next(s, StoreSock), c)
  {
    OtherStored(s, Next(s, StoreSock), c);
  }

  /** Another connection's socket is stored. */
  lemma OtherStored(s: State, s': State, c: nat)
    requires Base(s) && s.acc.Holding? && s.acc.id != c && c in s.peers && c in s'.peers && PeerOk(s, c)
    requires s'.lock == s.lock && s'.log == s.log && !s'.acc.Holding? && s.acc.slot < |s.slots|
    requires s'.slots == s.slots[s.acc.slot := s.slots[s.acc.slot].(sock := Conn(s.acc.id))]
    requires s'.peers[c] == s.peers[c]
    ensures PeerOk(s', c)
  {
    forall i | InSlot(s', i, c) ensures InSlot(s, i, c) {
      assert i != s.acc.slot;
    }
    SamePeer(s, s', c);
  }

  /** The connection whose socket is stored has carried nothing yet. */
  lemma StoredPeer(s: State, s': State, c: nat)
    requires Base(s) && s.acc.Holding? && s.acc.id == c && c in s.peers && c in s'.peers && PeerOk(s, c)
    requires s'.lock == s.lock && s'.log == s.log && !s'.acc.Holding? && s.acc.slot < |s.slots|
    requires s'.slots == s.slots[s.acc.slot := s.slots[s.acc.slot].(sock := Conn(c))]
    requires s'.peers[c] == s.peers[c].(first := Passed(s, s.acc.slot, c))
    ensures PeerOk(s', c)
  {
    assert !Listed(s, c) && !Targets(s, c);
    forall i | InSlot(s', i, c) ensures i == s.acc.slot {
      assert !InSlot(s, i, c);
    }
  }

  /** Steps of the acceptor and the handlers that no connection notices. */
  lemma ThreadPeer(s: State, e: Event, c: nat)
    requires Inv(s) && Enabled(s, e) && c in s.peers
    requires e.Spawn? || e.CallConn? || e.CallRecv? || e.CallDis? || e.CloseSock?
    ensures c in Next(s, e).peers && PeerOk(Next(s, e), c)
  {
    var s' := Next(s, e);
    assert s'.slots == s.slots && s'.lock == s.lock && s'.log == s.log;
    SameWire(s, s', c);
  }

  /** Only threads and callbacks changed. */
  lemma SameWire(s: State, s': State, c: nat)
    requires c in s.peers && c in s'.peers && PeerOk(s, c)
    requires s'.slots == s.slots && s'.lock == s.lock && s'.log == s.log
    requires s'.peers[c].(calls := []) == s.peers[c].(calls := [])
    requires s'.acc.Holding? ==> s'.acc == s.acc
    ensures PeerOk(s', c)
  {
    SamePeer(s, s', c);
  }

  lemma FreeSlotPeer(s: State, id: nat, c: nat)
    requires Inv(s) && Enabled(s, FreeSlot(id)) && c in s.peers
    ensures PeerOk(Next(s, FreeSlot(id)), c)
  {
    SamePeer(s, Next(s, FreeSlot(id)), c);
  }

  lemma LockPeer(s: State, e: Event, c: nat)
    requires Inv(s) && Enabled(s, e) && c in s.peers
    requires e.BeginBcast? || e.SkipSlot? || e.EndBcast? || e.EndOne?
    ensures PeerOk(Next(s, e), c)
  {
    SamePeer(s, Next(s, e), c);
  }

  /** A send begins: nothing is written yet. */
  lemma StartXferPeer(s: State, c: nat)
    requires Inv(s) && Enabled(s, StartXfer) && c in s.peers
    ensures PeerOk(Next(s, StartXfer), c)
  {
    SendBegins(s, Next(s, StartXfer), c);
  }

  lemma BeginOnePeer(s: State, id: nat, load: Load, c: nat)
    requires Inv(s) && Enabled(s, BeginOne(id, load)) && c in s.peers
    ensures PeerOk(Next(s, BeginOne(id, load)), c)
  {
    SendBegins(s, Next(s, BeginOne(id, load)), c);
  }

  lemma SendBegins(s: State, s': State, c: nat)
    requires Inv(s) && c in s.peers && s' == s.(lock := s'.lock) && XferOf(s.lock) == None
    requires if s.lock.Bcast? then s'.lock.Bcast? && s'.lock.idx == s.lock.idx else !s'.lock.Bcast?
    requires XferOf(s'.lock).Some? ==>
               var x := XferOf(s'.lock).value;
               x.slot < |s.slots| && x.target == s.slots[x.slot].sock && x.sofar == 0 && (s'.lock.Bcast? ==> x.slot == s'.lock.idx)
    ensures PeerOk(s', c)
  {
    assert PeerOk(s, c);
    forall i | InSlot(s', i, c) ensures InSlot(s, i, c) && Passed(s', i, c) == Passed(s, i, c) {}
    if Targets(s', c) {
      var x := XferOf(s'.lock).value;
      assert InSlot(s, x.slot, c);
      FirstByte(s, s', x, c);
    } else {
      SamePeer(s, s', c);
    }
  }

  lemma FirstByte(s: State, s': State, x: Xfer, c: nat)
    requires Inv(s) && c in s.peers && InSlot(s, x.slot, c)
    requires s' == s.(lock := s'.lock) && XferOf(s'.lock) == Some(x) && XferOf(s.lock) == None
    requires x.target == Conn(c) && x.sofar == 0
    requires Passed(s', x.slot, c) == Passed(s, x.slot, c)
    ensures PeerOk(s', c)
  {
    assert PeerOk(s, c) && Listed(s, c) && s.peers[c].cut == None;
    assert Written(Some(x)) == [];
    forall j | InSlot(s', j, c) ensures Passed(s', j, c) == Passed(s, j, c) {
      OneSlot(s, x.slot, j, c);
    }
  }

  lemma ChunkPeer(s: State, n: nat, c: nat)
    requires Inv(s) && Enabled(s, Chunk(n)) && c in s.peers
    ensures c in Next(s, Chunk(n)).peers && PeerOk(Next(s, Chunk(n)), c)
  {
    var x := XferOf(s.lock).value;
    if x.target == Conn(c) {
      assert PeerOk(s, c);
      ChunkTarget(s, Next(s, Chunk(n)), x, n, c);
    } else {
      OtherChunk(s, n, c);
    }
  }

  /** From s to s' another n bytes of message x are written to connection c. */
  ghost predicate Writes(s: State, s': State, x: Xfer, n: nat, c: nat) {
    && XferOf(s.lock) == Some(x) && x.target == Conn(c) && x.sofar + n <= |x.item.load.bytes|
    && c in s.peers && c in s'.peers && s'.lock == WithXfer(s.lock, x.(sofar := x.sofar + n))
    && s'.log == s.log && s'.acc == s.acc && s'.slots == s.slots
  }

  lemma ChunkTarget(s: State, s': State, x: Xfer, n: nat, c: nat)
    requires Base(s) && Writes(s, s', x, n, c) && PeerOk(s, c)
    requires s'.peers[c] == s.peers[c].(bytes := s.peers[c].bytes + Slice(x.item.load.bytes, x.sofar, n))
    ensures PeerOk(s', c)
  {
    ChunkCarried(s, s', x, n, c);
    ChunkElse(s, s', x, n, c);
  }

  lemma ChunkCarried(s: State, s': State, x: Xfer, n: nat, c: nat)
    requires Writes(s, s', x, n, c) && Carried(s, c)
    requires s'.peers[c].done == s.peers[c].done
    requires s'.peers[c].bytes == s.peers[c].bytes + Slice(x.item.load.bytes, x.sofar, n)
    ensures Carried(s', c)
  {
    var f, done := x.item.load.bytes, FramesOf(s.peers[c].done);
    assert Slice(f, 0, x.sofar) + Slice(f, x.sofar, n) == Slice(f, 0, x.sofar + n);
    assert (done + Slice(f, 0, x.sofar)) + Slice(f, x.sofar, n) == done + Slice(f, 0, x.sofar + n);
  }

  /** What does not depend on the bytes. */
  lemma ChunkElse(s: State, s': State, x: Xfer, n: nat, c: nat)
    requires Base(s) && Writes(s, s', x, n, c) && CutOff(s, c) && Ordered(s, c) && CutInTurn(s, c) && Untouched(s, c)
    requires s'.peers[c].(bytes := []) == s.peers[c].(bytes := [])
    ensures CutOff(s', c) && Ordered(s', c) && CutInTurn(s', c) && Untouched(s', c)
  {
    assert InSlot(s, x.slot, c) && Listed(s, c);
    forall i | InSlot(s', i, c) ensures Passed(s', i, c) == Passed(s, i, c) {
      assert InSlot(s, i, c);
    }
  }

  lemma XferDonePeer(s: State, c: nat)
    requires Inv(s) && Enabled(s, XferDone) && c in s.peers
    ensures c in Next(s, XferDone).peers && PeerOk(Next(s, XferDone), c)
  {
    var x := XferOf(s.lock).value;
    if x.target == Conn(c) {
      assert PeerOk(s, c);
      DonePeer(s, Next(s, XferDone), x, c);
    } else {
      OtherDone(s, c);
    }
  }

  /** A connection that is not being written to does not notice the writing. */
  lemma OtherChunk(s: State, n: nat, c: nat)
    requires Inv(s) && Enabled(s, Chunk(n)) && c in s.peers && XferOf(s.lock).value.target != Conn(c)
    ensures c in Next(s, Chunk(n)).peers && PeerOk(Next(s, Chunk(n)), c)
  {
    Bystander(s, Next(s, Chunk(n)), XferOf(s.lock).value, c);
  }

  lemma OtherDone(s: State, c: nat)
    requires Inv(s) && Enabled(s, XferDone) && c in s.peers && XferOf(s.lock).value.target != Conn(c)
    ensures c in Next(s, XferDone).peers && PeerOk(Next(s, XferDone), c)
  {
    Bystander(s, Next(s, XferDone), XferOf(s.lock).value, c);
  }

  lemma OtherFails(s: State, c: nat)
    requires Inv(s) && Enabled(s, XferFails) && c in s.peers && XferOf(s.lock).value.target != Conn(c)
    ensures c in Next(s, XferFails).peers && PeerOk(Next(s, XferFails), c)
  {
    Bystander(s, Next(s, XferFails), XferOf(s.lock).value, c);
  }

  lemma Bystander(s: State, s': State, x: Xfer, c: nat)
    requires Base(s) && c in s.peers && c in s'.peers && PeerOk(s, c) && s'.peers[c] == s.peers[c]
    requires XferOf(s.lock) == Some(x) && x.target != Conn(c) && s'.log == s.log && s'.acc == s.acc
    requires s'.slots == s.slots || s'.slots == s.slots[x.slot := s.slots[x.slot].(sock := Dead)]
    requires if XferOf(s'.lock).None? then s'.lock == Returned(s.lock)
             else s'.lock == WithXfer(s.lock, x.(sofar := XferOf(s'.lock).value.sofar))
    ensures PeerOk(s', c)
  {
    forall i | InSlot(s', i, c) ensures InSlot(s, i, c) && Passed(s', i, c) == Passed(s, i, c) {
      assert InSlot(s, i, c);
    }
    SamePeer(s, s', c);
  }

  /** From s to s' the message x, all of it written to connection c, is finished. */
  ghost predicate Finishes(s: State, s': State, x: Xfer, c: nat) {
    && XferOf(s.lock) == Some(x) && x.target == Conn(c) && x.sofar == |x.item.load.bytes|
    && c in s.peers && c in s'.peers && s'.peers[c] == s.peers[c].(done := s.peers[c].done + [x.item])
    && s'.lock == Returned(s.lock) && s'.log == s.log && s'.acc == s.acc && s'.slots == s.slots
  }

  lemma DonePeer(s: State, s': State, x: Xfer, c: nat)
    requires Base(s) && Finishes(s, s', x, c) && PeerOk(s, c)
    ensures PeerOk(s', c)
  {
    assert InSlot(s, x.slot, c) && Listed(s, c);
    assert s.peers[c].cut == None;
    DoneCarried(s, s', x, c);
    DoneOrdered(s, s', x, c);
  }

  lemma DoneCarried(s: State, s': State, x: Xfer, c: nat)
    requires Finishes(s, s', x, c) && Carried(s, c) && s.peers[c].cut == None
    ensures Carried(s', c)
  {
    WholeFrame(s.peers[c].bytes, s.peers[c].done, x);
    assert Partial(s', c) == None;
  }

  lemma WholeFrame(bytes: seq<Octet>, done: seq<Item>, x: Xfer)
    requires x.sofar == |x.item.load.bytes| && bytes == FramesOf(done) + Written(Some(x))
    ensures bytes == FramesOf(done + [x.item]) + Written(None)
  {
    FramesOfOne(done, x.item);
    assert Slice(x.item.load.bytes, 0, x.sofar) == x.item.load.bytes;
    assert bytes + [] == bytes;
  }

  lemma DoneOrdered(s: State, s': State, x: Xfer, c: nat)
    requires Base(s) && Finishes(s, s', x, c) && Ordered(s, c) && InSlot(s, x.slot, c)
    ensures Ordered(s', c)
  {
    var p, done' := s.peers[c], s'.peers[c].done;
    forall j | 0 <= j < |done'| ensures Turn(done', p.first, s.log, j) {
      CountExtends(p.done, x.item, j);
      assert j < |p.done| ==> Turn(p.done, p.first, s.log, j);
    }
    CountExtends(p.done, x.item, |p.done|);
    forall i | InSlot(s', i, c) ensures i == x.slot {
      assert InSlot(s, i, c);
      OneSlot(s, i, x.slot, c);
    }
  }

  lemma XferFailsPeer(s: State, c: nat)
    requires Inv(s) && Enabled(s, XferFails) && c in s.peers
    ensures c in Next(s, XferFails).peers && PeerOk(Next(s, XferFails), c)
  {
    var s', x := Next(s, XferFails), XferOf(s.lock).value;
    if x.target == Conn(c) {
      CutPeer(s, s', x, c);
    } else {
      OtherFails(s, c);
    }
  }

  /** The send error takes the connection out of its slot with part of a message written. */
  lemma CutPeer(s: State, s': State, x: Xfer, c: nat)
    requires Base(s) && XferOf(s.lock) == Some(x) && x.target == Conn(c) && x.sofar < |x.item.load.bytes|
    requires c in s.peers && c in s'.peers && PeerOk(s, c) && s'.peers[c] == s.peers[c].(cut := Some(x))
    requires XferOf(s'.lock) == None && s'.log == s.log && s'.acc == s.acc
    requires s'.slots == s.slots[x.slot := s.slots[x.slot].(sock := Dead)]
    ensures PeerOk(s', c)
  {
    assert InSlot(s, x.slot, c);
    assert !Listed(s', c) by {
      if Listed(s', c) {
        var i :| InSlot(s', i, c);
        OneSlot(s, i, x.slot, c);
      }
    }
  }

  lemma EveryStepKeepsPeer(s: State, e: Event, c: nat)
    requires Inv(s) && Enabled(s, e) && c in Next(s, e).peers
    ensures PeerOk(Next(s, e), c)
  {
    match e
    case Accept(id) => AcceptPeer(s, id, c);
    case StoreSock => StoreSockPeer(s, c);
    case BeginBcast(_) => LockPeer(s, e, c);
    case SkipSlot => LockPeer(s, e, c);
    case EndBcast => LockPeer(s, e, c);
    case EndOne => LockPeer(s, e, c);
    case StartXfer => StartXferPeer(s, c);
    case BeginOne(id, load) => BeginOnePeer(s, id, load, c);
    case Chunk(n) => ChunkPeer(s, n, c);
    case XferDone => XferDonePeer(s, c);
    case XferFails => XferFailsPeer(s, c);
    case FreeSlot(id) => FreeSlotPeer(s, id, c);
    case _ => ThreadPeer(s, e, c);
  }

  lemma EveryStepKeeps(s: State, e: Event)
    requires Inv(s) && Enabled(s, e)
    ensures Inv(Next(s, e))
  {
    EveryStepKeepsBase(s, e);
    forall c | c in Next(s, e).peers ensures PeerOk(Next(s, e), c) {
      EveryStepKeepsPeer(s, e, c);
    }
  }

  // --- Whole runs -----------------------------------------------------------

  ghost predicate IsRun(ss: seq<State>, es: seq<Event>) {
    && |ss| == |es| + 1 && Start(ss[0])
    && forall i | 0 <= i < |es| :: Steps(ss[i], es[i], ss[i + 1])
  }

  ghost predicate Steps(s: State, e: Event, s': State) {
    Enabled(s, e) && s' == Next(s, e)
  }

  lemma {:induction false} EveryRunKeeps(ss: seq<State>, es: seq<Event>, i: nat)
    requires IsRun(ss, es) && i < |ss|
    ensures Inv(ss[i])
  {
    if i > 0 {
      EveryRunKeeps(ss, es, i - 1);
      assert Steps(ss[i - 1], es[i - 1], ss[i - 1 + 1]);
      EveryStepKeeps(ss[i - 1], es[i - 1]);
    }
  }

  /** The guards of the steps hide no reachable situation: a message in progress
      can always go on, and every owner can always take its next step. */
  lemma NobodyIsStuck(s: State)
    requires Inv(s)
    ensures XferOf(s.lock).Some? ==> Sending(s)
    ensures s.acc.Holding? ==> Enabled(s, StoreSock)
    ensures forall id | id in s.handlers :: id in s.peers && (s.handlers[id].Owns? ==> Holds(s, id))
    ensures s.lock.Bcast? && s.lock.x.None? ==> Enabled(s, SkipSlot) || Enabled(s, StartXfer) || Enabled(s, EndBcast)
  {}

  lemma OnlyTheTargetIsWritten(s: State, e: Event, id: nat)
    requires Enabled(s, e) && id in s.peers && !Targets(s, id)
    ensures id in Next(s, e).peers
    ensures Next(s, e).peers[id].bytes == s.peers[id].bytes && Next(s, e).peers[id].cut == s.peers[id].cut
  {}

  /** Once a message is cut off, no step writes to the connection again. */
  lemma CutIsFinal(s: State, e: Event, id: nat)
    requires Inv(s) && Enabled(s, e) && id in s.peers && s.peers[id].cut.Some?
    ensures id in Next(s, e).peers
    ensures Next(s, e).peers[id].bytes == s.peers[id].bytes && Next(s, e).peers[id].cut == s.peers[id].cut
  {
    assert CutOff(s, id);
    OnlyTheTargetIsWritten(s, e, id);
  }

  /** Over a whole run: what a connection has carried at a cut is all it ever carries. */
  lemma {:induction false} NothingAfterACut(ss: seq<State>, es: seq<Event>, i: nat, j: nat, id: nat)
    requires IsRun(ss, es) && i <= j < |ss| && id in ss[i].peers && ss[i].peers[id].cut.Some?
    ensures id in ss[j].peers
    ensures ss[j].peers[id].bytes == ss[i].peers[id].bytes && ss[j].peers[id].cut == ss[i].peers[id].cut
  {
    if i < j {
      NothingAfterACut(ss, es, i, j - 1, id);
      EveryRunKeeps(ss, es, j - 1);
      assert Steps(ss[j - 1], es[j - 1], ss[j - 1 + 1]);
      CutIsFinal(ss[j - 1], es[j - 1], id);
    }
  }

  /** Later items carry later broadcasts, each with the bytes of the log. */
  lemma LogOrder(s: State, id: nat, j: nat, k: nat)
    requires Inv(s) && id in s.peers && j < |s.peers[id].done| && k < |s.peers[id].done|
    requires s.peers[id].done[j].broadcast != ONE_CLIENT && s.peers[id].done[k].broadcast != ONE_CLIENT
    ensures 0 <= s.peers[id].done[j].broadcast < |s.log|
    ensures s.peers[id].done[j].load == s.log[s.peers[id].done[j].broadcast]
    ensures j < k <==> s.peers[id].done[j].broadcast < s.peers[id].done[k].broadcast
  {
    assert PeerOk(s, id);
    var p := s.peers[id];
    assert Turn(p.done, p.first, s.log, j) && Turn(p.done, p.first, s.log, k);
    if j < k {
      CountGrows(p.done, j, k);
    } else if k < j {
      CountGrows(p.done, k, j);
    }
  }

  /** So does the one that an error cut off: it comes after all that were sent whole. */
  lemma CutOrder(s: State, id: nat, j: nat)
    requires Inv(s) && id in s.peers && s.peers[id].cut.Some? && j < |s.peers[id].done|
    requires s.peers[id].cut.value.item.broadcast != ONE_CLIENT && s.peers[id].done[j].broadcast != ONE_CLIENT
    ensures var b := s.peers[id].cut.value.item.broadcast;
      s.peers[id].done[j].broadcast < b < |s.log| && s.peers[id].cut.value.item.load == s.log[b]
  {
    assert PeerOk(s, id);
    var p := s.peers[id];
    assert Turn(p.done, p.first, s.log, j);
    CountGrows(p.done, j, |p.done|);
  }

  /** Broadcasts appear in the same order, with the same bytes, on every connection:
      a and b have both got broadcasts x and y, at places ax, ay and bx, by. */
  lemma SameOrderEverywhere(s: State, a: nat, b: nat, ax: nat, ay: nat, bx: nat, by': nat)
    requires Inv(s) && a in s.peers && b in s.peers
    requires ax < |s.peers[a].done| && ay < |s.peers[a].done| && bx < |s.peers[b].done| && by' < |s.peers[b].done|
    requires s.peers[a].done[ax].broadcast == s.peers[b].done[bx].broadcast != ONE_CLIENT
    requires s.peers[a].done[ay].broadcast == s.peers[b].done[by'].broadcast != ONE_CLIENT
    ensures ax < ay <==> bx < by'
    ensures s.peers[a].done[ax] == s.peers[b].done[bx]
  {
    LogOrder(s, a, ax, ay);
    LogOrder(s, b, bx, by');
  }

  lemma {:induction false} CountGrows(done: seq<Item>, j: nat, k: nat)
    requires j < k <= |done|
    ensures Count(done, j) + (if done[j].broadcast == ONE_CLIENT then 0 else 1) <= Count(done, k)
  {
    if j < k - 1 {
      CountGrows(done, j, k - 1);
    }
  }

  /** The broadcast with t broadcasts before it, looked for between items j and k. */
  lemma {:induction false} NthBroadcast(done: seq<Item>, j: nat, k: nat, t: int) returns (n: nat)
    requires j <= k < |done| && done[k].broadcast != ONE_CLIENT && Count(done, j) <= t <= Count(done, k)
    ensures j <= n <= k && done[n].broadcast != ONE_CLIENT && Count(done, n) == t
    decreases k
  {
    if Count(done, k) == t {
      n := k;
    } else {
      var m := k - 1;
      while done[m].broadcast == ONE_CLIENT
        invariant j <= m < k && Count(done, m + 1) == Count(done, k)
        decreases m
      {
        m := m - 1;
      }
      n := NthBroadcast(done, j, m, t);
    }
  }

  /** A connection that is stored in a slot has missed no broadcast: it has exactly
      those from its first one up to the last that has passed its slot. */
  lemma NoBroadcastMissed(s: State, i: nat, id: nat, b: nat)
    requires Inv(s) && InSlot(s, i, id) && id in s.peers
    requires s.peers[id].first <= b < Passed(s, i, id)
    ensures exists n :: 0 <= n < |s.peers[id].done| && s.peers[id].done[n] == Item(b, s.log[b])
  {
    assert PeerOk(s, id);
    var p := s.peers[id];
    var k := |p.done|;
    while p.done[k - 1].broadcast == ONE_CLIENT
      invariant 0 < k <= |p.done| && Count(p.done, k) == Count(p.done, |p.done|)
      decreases k
    {
      k := k - 1;
    }
    var n := NthBroadcast(p.done, 0, k - 1, b - p.first);
    assert Turn(p.done, p.first, s.log, n);
  }
}
