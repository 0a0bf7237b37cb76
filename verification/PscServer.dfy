/** listener.c as interleaved steps of the acceptor, the per-client handlers and
    any number of broadcasters, with one mutex around every send. */
module PscServer {
  import opened Octets
  import opened PscFrame

  const MAX_CLIENTS := 4

  /** psc_client.sock: zeroed by allocation, a connection, or -1 after a send error.
      Connections are told apart by an id of their own, not by socket number. */
  datatype Sock = Zero | Conn(id: nat) | Dead

  datatype Slot = Slot(used: bool, sock: Sock)

  /** psc_run between accept calls: it may hold a slot whose socket is not stored
      yet, or is stored while the handler thread does not exist yet. */
  datatype Acceptor = Waiting | Holding(slot: nat, id: nat) | Stored(slot: nat, id: nat)

  datatype Stage = Entered | Serving | Leaving

  /** handle_client: after freeing its slot it keeps only its local copy of the socket. */
  datatype Handler = Owns(slot: nat, stage: Stage) | Closing

  datatype Callback = CONN | RECV | DIS

  /** A message and the bytes psc_sendmsg makes of it. */
  datatype Load = Load(m: Msg, bytes: seq<Octet>)

  /** One psc_sendmsg: by broadcast number, or for one client only. */
  datatype Item = Item(broadcast: int, load: Load)
  const ONE_CLIENT := -1

  /** A psc_sendmsg in progress: it writes to the socket value it was called with. */
  datatype Xfer = Xfer(slot: nat, target: Sock, item: Item, sofar: nat)

  /** Who holds sendguard: nobody, psc_send at client index idx, or psc_send_one. */
  datatype Lock = Free | Bcast(idx: nat, x: Option<Xfer>) | One(x: Option<Xfer>)

  /** What is known about a connection: the bytes written to it and, for the
      proof, the messages sent whole, the one a send error cut off, the number of
      the first broadcast meant for it, and the callbacks made for it. */
  datatype Peer = Peer(bytes: seq<Octet>, done: seq<Item>, cut: Option<Xfer>, first: nat, calls: seq<Callback>)

  datatype State = State(slots: seq<Slot>, acc: Acceptor, handlers: map<nat, Handler>,
                         lock: Lock, log: seq<Load>, peers: map<nat, Peer>)

  datatype Event =
    | Accept(id: nat) | StoreSock | Spawn
    | CallConn(id: nat) | CallRecv(id: nat) | CallDis(id: nat) | FreeSlot(id: nat) | CloseSock(id: nat)
    | BeginBcast(load: Load) | SkipSlot | StartXfer | EndBcast
    | BeginOne(id: nat, load: Load) | EndOne
    | Chunk(n: nat) | XferDone | XferFails

  // --- The slot pool ------------------------------------------------------

  /** The loop of psc_client_alloc: the first slot at or after i whose bit is clear. */
  function FirstFree(slots: seq<Slot>, i: nat): (r: nat)
    requires i <= |slots|
    ensures i <= r <= |slots|
    ensures r < |slots| ==> !slots[r].used
    ensures forall j | i <= j < r :: slots[j].used
    decreases |slots| - i
  {
    if i == |slots| || !slots[i].used then i else FirstFree(slots, i + 1)
  }

  /** The slots after psc_client_alloc. */
  function Allocated(slots: seq<Slot>): seq<Slot> {
    var i := FirstFree(slots, 0);
    if i == |slots| then slots else slots[i := Slot(true, Zero)]
  }

  /** The slots after psc_client_free. */
  function Released(slots: seq<Slot>, i: nat): seq<Slot>
    requires i < |slots|
  {
    slots[i := Slot(false, Zero)]
  }

  // --- Steps --------------------------------------------------------------

  ghost predicate Holds(s: State, id: nat) {
    id in s.handlers && s.handlers[id].Owns? && s.handlers[id].slot < |s.slots|
  }

  function XferOf(l: Lock): Option<Xfer> {
    match l
    case Free => None
    case Bcast(_, x) => x
    case One(x) => x
  }

  ghost predicate Sending(s: State) {
    && XferOf(s.lock).Some? && XferOf(s.lock).value.sofar <= |XferOf(s.lock).value.item.load.bytes|
    && XferOf(s.lock).value.slot < |s.slots|
    && (XferOf(s.lock).value.target.Conn? ==> XferOf(s.lock).value.target.id in s.peers)
  }

  ghost predicate Enabled(s: State, e: Event) {
    match e
    case Accept(id) => s.lock.Free? && s.acc.Waiting? && id !in s.peers
    case StoreSock => s.acc.Holding? && s.acc.slot < |s.slots| && s.acc.id in s.peers
    case Spawn => s.acc.Stored?
    case CallConn(id) => Holds(s, id) && s.handlers[id].stage == Entered && id in s.peers
    case CallRecv(id) => Holds(s, id) && s.handlers[id].stage == Serving && id in s.peers
    case CallDis(id) => Holds(s, id) && s.handlers[id].stage == Serving && id in s.peers
    case FreeSlot(id) => s.lock.Free? && Holds(s, id) && s.handlers[id].stage == Leaving
    case CloseSock(id) => s.lock.Free? && id in s.handlers && s.handlers[id].Closing?
    case BeginBcast(_) => s.lock.Free?
    case SkipSlot => s.lock.Bcast? && s.lock.x.None? && s.lock.idx < |s.slots| && !Wanted(s.slots[s.lock.idx])
    case StartXfer => s.lock.Bcast? && s.lock.x.None? && s.lock.idx < |s.slots| && Wanted(s.slots[s.lock.idx])
                      && s.log != []
    case EndBcast => s.lock.Bcast? && s.lock.x.None? && s.lock.idx == |s.slots|
    case BeginOne(id, _) => s.lock.Free? && Holds(s, id)
    case EndOne => s.lock.One? && s.lock.x.None?
    case Chunk(n) => Sending(s) && 1 <= n <= |XferOf(s.lock).value.item.load.bytes| - XferOf(s.lock).value.sofar
    case XferDone => Sending(s) && XferOf(s.lock).value.sofar == |XferOf(s.lock).value.item.load.bytes|
    case XferFails => Sending(s) && XferOf(s.lock).value.sofar < |XferOf(s.lock).value.item.load.bytes|
  }

  /** The test at the top of the psc_send loop. */
  predicate Wanted(slot: Slot) {
    slot.used && slot.sock != Dead
  }

  function WithCall(s: State, id: nat, c: Callback, stage: Stage): State
    requires id in s.handlers && s.handlers[id].Owns? && id in s.peers
  {
    s.(handlers := s.handlers[id := s.handlers[id].(stage := stage)],
       peers := s.peers[id := s.peers[id].(calls := s.peers[id].calls + [c])])
  }

  /** After a psc_sendmsg returns, psc_send goes on to the next index. */
  function Returned(l: Lock): Lock {
    match l
    case Free => Free
    case Bcast(idx, _) => Bcast(idx + 1, None)
    case One(_) => One(None)
  }

  function WithXfer(l: Lock, x: Xfer): Lock {
    match l
    case Free => Free
    case Bcast(idx, _) => Bcast(idx, Some(x))
    case One(_) => One(Some(x))
  }

  function Update(s: State, target: Sock, f: Peer): map<nat, Peer> {
    if target.Conn? then s.peers[target.id := f] else s.peers
  }

  function PeerOf(s: State, target: Sock): Peer {
    if target.Conn? && target.id in s.peers then s.peers[target.id] else Peer([], [], None, 0, [])
  }

  ghost function Next(s: State, e: Event): State
    requires Enabled(s, e)
  {
    match e
    case Accept(id) =>
      var i := FirstFree(s.slots, 0);
      if i == |s.slots| then s
      else s.(slots := Allocated(s.slots), acc := Holding(i, id),
              peers := s.peers[id := Peer([], [], None, 0, [])])
    case StoreSock =>
      s.(slots := s.slots[s.acc.slot := s.slots[s.acc.slot].(sock := Conn(s.acc.id))],
         acc := Stored(s.acc.slot, s.acc.id),
         peers := s.peers[s.acc.id := s.peers[s.acc.id].(first := Passed(s, s.acc.slot, s.acc.id))])
    case Spawn => s.(acc := Waiting, handlers := s.handlers[s.acc.id := Owns(s.acc.slot, Entered)])
    case CallConn(id) => WithCall(s, id, CONN, Serving)
    case CallRecv(id) => WithCall(s, id, RECV, Serving)
    case CallDis(id) => WithCall(s, id, DIS, Leaving)
    case FreeSlot(id) =>
      s.(slots := Released(s.slots, s.handlers[id].slot), handlers := s.handlers[id := Closing])
    case CloseSock(id) => s.(handlers := s.handlers - {id})
    case BeginBcast(load) => s.(lock := Bcast(0, None), log := s.log + [load])
    case SkipSlot => s.(lock := Bcast(s.lock.idx + 1, None))
    case StartXfer =>
      var item := Item(|s.log| - 1, s.log[|s.log| - 1]);
      s.(lock := Bcast(s.lock.idx, Some(Xfer(s.lock.idx, s.slots[s.lock.idx].sock, item, 0))))
    case EndBcast => s.(lock := Free)
    case BeginOne(id, load) =>
      var slot := s.handlers[id].slot;
      if s.slots[slot].sock == Dead then s.(lock := One(None))
      else s.(lock := One(Some(Xfer(slot, s.slots[slot].sock, Item(ONE_CLIENT, load), 0))))
    case EndOne => s.(lock := Free)
    case Chunk(n) =>
      var x := XferOf(s.lock).value;
      var p := PeerOf(s, x.target);
      s.(lock := WithXfer(s.lock, x.(sofar := x.sofar + n)),
         peers := Update(s, x.target, p.(bytes := p.bytes + Slice(x.item.load.bytes, x.sofar, n))))
    case XferDone =>
      var x := XferOf(s.lock).value;
      var p := PeerOf(s, x.target);
      s.(lock := Returned(s.lock), peers := Update(s, x.target, p.(done := p.done + [x.item])))
    case XferFails =>
      var x := XferOf(s.lock).value;
      s.(lock := Returned(s.lock), slots := s.slots[x.slot := s.slots[x.slot].(sock := Dead)],
         peers := Update(s, x.target, PeerOf(s, x.target).(cut := Some(x))))
  }

  /** How many broadcasts have passed slot i, seen from connection id: the running
      one has not if its index has still to reach the slot, or is writing to id now. */
  function Passed(s: State, i: nat, id: nat): nat {
    if s.lock.Bcast? && s.log != [] && (s.lock.idx < i || (s.lock.idx == i && (s.lock.x.None? || s.lock.x.value.target == Conn(id))))
    then |s.log| - 1 else |s.log|
  }

  ghost predicate Start(s: State) {
    && |s.slots| == MAX_CLIENTS && (forall i | 0 <= i < |s.slots| :: s.slots[i] == Slot(false, Zero))
    && s.acc == Waiting && s.handlers == map[] && s.lock == Free && s.log == [] && s.peers == map[]
  }

  // --- What every step keeps ----------------------------------------------

  ghost predicate AccOwns(acc: Acceptor, i: int) {
    !acc.Waiting? && acc.slot == i
  }

  ghost predicate HandlerOwns(hs: map<nat, Handler>, id: nat, i: int) {
    id in hs && hs[id].Owns? && hs[id].slot == i
  }

  ghost predicate SomeHandlerOwns(hs: map<nat, Handler>, i: int) {
    exists id :: HandlerOwns(hs, id, i)
  }

  /** A slot's bit is set iff some thread owns it, and then exactly one does. */
  ghost predicate Pool(s: State) {
    && |s.slots| == MAX_CLIENTS
    && (!s.acc.Waiting? ==> 0 <= s.acc.slot < MAX_CLIENTS && s.acc.id in s.peers && s.acc.id !in s.handlers)
    && (forall id | id in s.handlers :: id in s.peers && (s.handlers[id].Owns? ==> s.handlers[id].slot < MAX_CLIENTS))
    && (forall i | 0 <= i < MAX_CLIENTS ::
          s.slots[i].used <==> AccOwns(s.acc, i) || SomeHandlerOwns(s.handlers, i))
    && (forall i :: SomeHandlerOwns(s.handlers, i) ==> !AccOwns(s.acc, i))
    && (forall a, b, i :: HandlerOwns(s.handlers, a, i) && HandlerOwns(s.handlers, b, i) ==> a == b)
  }

  /** A stored socket belongs to the slot's owner. */
  ghost predicate Socks(s: State) {
    && |s.slots| == MAX_CLIENTS
    && (forall i | 0 <= i < MAX_CLIENTS ::
          match s.slots[i].sock
          case Conn(c) => s.slots[i].used && (s.acc == Stored(i, c) || HandlerOwns(s.handlers, c, i))
          case Zero => s.slots[i].used ==> s.acc.Holding? && s.acc.slot == i
          case Dead => s.slots[i].used)
    && (s.acc.Holding? && 0 <= s.acc.slot < MAX_CLIENTS ==> !s.slots[s.acc.slot].sock.Conn?)
  }

  /** The holder of the mutex sends one whole message at a time, to a socket that
      stays where it found it. */
  ghost predicate Guard(s: State) {
    && (s.lock.Bcast? ==> s.lock.idx <= |s.slots| && s.log != [])
    && (XferOf(s.lock).Some? ==>
          var x := XferOf(s.lock).value;
          && x.slot < |s.slots| && s.slots[x.slot].used && x.sofar <= |x.item.load.bytes|
          && x.target != Dead && (x.target.Conn? ==> s.slots[x.slot].sock == x.target)
          && (s.lock.Bcast? ==> x.slot == s.lock.idx && x.item == Item(|s.log| - 1, s.log[|s.log| - 1]))
          && (s.lock.One? ==> x.target.Conn? && x.item.broadcast == ONE_CLIENT))
  }

  ghost predicate Base(s: State) {
    Pool(s) && Socks(s) && Guard(s)
  }

  /** One handler entry changes; the handlers of other slots do not. */
  lemma OtherOwners(hs: map<nat, Handler>, hs': map<nat, Handler>, id: nat, i: int)
    requires forall h | h != id :: h in hs <==> h in hs'
    requires forall h | h != id && h in hs :: hs'[h] == hs[h]
    requires !HandlerOwns(hs, id, i) && !HandlerOwns(hs', id, i)
    ensures SomeHandlerOwns(hs, i) <==> SomeHandlerOwns(hs', i)
  {
    if SomeHandlerOwns(hs, i) {
      var h :| HandlerOwns(hs, h, i);
      assert HandlerOwns(hs', h, i);
    }
    if SomeHandlerOwns(hs', i) {
      var h :| HandlerOwns(hs', h, i);
      assert HandlerOwns(hs, h, i);
    }
  }

  lemma AcceptKeepsBase(s: State, id: nat)
    requires Base(s) && Enabled(s, Accept(id))
    ensures Base(Next(s, Accept(id)))
  {}

  lemma StoreSockKeepsBase(s: State)
    requires Base(s) && Enabled(s, StoreSock)
    ensures Base(Next(s, StoreSock))
  {}

  lemma SpawnKeepsBase(s: State)
    requires Base(s) && Enabled(s, Spawn)
    ensures Base(Next(s, Spawn))
  {
    var s' := Next(s, Spawn);
    forall i ensures SomeHandlerOwns(s'.handlers, i) <==> SomeHandlerOwns(s.handlers, i) || i == s.acc.slot {
      if i == s.acc.slot {
        assert HandlerOwns(s'.handlers, s.acc.id, i);
      } else {
        OtherOwners(s.handlers, s'.handlers, s.acc.id, i);
      }
    }
    forall a, b, i | HandlerOwns(s'.handlers, a, i) && HandlerOwns(s'.handlers, b, i) ensures a == b {
      assert a != s.acc.id ==> HandlerOwns(s.handlers, a, i);
      assert b != s.acc.id ==> HandlerOwns(s.handlers, b, i);
    }
    forall i | 0 <= i < MAX_CLIENTS && s.slots[i].sock.Conn?
      ensures HandlerOwns(s'.handlers, s.slots[i].sock.id, i)
    {}
  }

  lemma CallKeepsBase(s: State, id: nat, c: Callback, stage: Stage)
    requires Base(s) && Holds(s, id) && id in s.peers
    ensures Base(WithCall(s, id, c, stage))
  {
    var s' := WithCall(s, id, c, stage);
    forall h: nat, i ensures HandlerOwns(s'.handlers, h, i) <==> HandlerOwns(s.handlers, h, i) {}
    forall i ensures SomeHandlerOwns(s'.handlers, i) <==> SomeHandlerOwns(s.handlers, i) {
      if SomeHandlerOwns(s'.handlers, i) {
        var h :| HandlerOwns(s'.handlers, h, i);
        assert HandlerOwns(s.handlers, h, i);
      }
      if SomeHandlerOwns(s.handlers, i) {
        var h :| HandlerOwns(s.handlers, h, i);
        assert HandlerOwns(s'.handlers, h, i);
      }
    }
  }

  lemma LeaveKeepsBase(s: State, id: nat, e: Event)
    requires Base(s) && Enabled(s, e) && (e == FreeSlot(id) || e == CloseSock(id))
    ensures Base(Next(s, e))
  {
    var s' := Next(s, e);
    forall i ensures SomeHandlerOwns(s'.handlers, i) <==>
                     SomeHandlerOwns(s.handlers, i) && !(e.FreeSlot? && i == s.handlers[id].slot)
    {
      if e.FreeSlot? && i == s.handlers[id].slot {
        assert HandlerOwns(s.handlers, id, i);
        forall h: nat ensures !HandlerOwns(s'.handlers, h, i) {
          assert h != id && HandlerOwns(s'.handlers, h, i) ==> HandlerOwns(s.handlers, h, i);
        }
      } else {
        OtherOwners(s.handlers, s'.handlers, id, i);
      }
    }
    forall a: nat, i | HandlerOwns(s'.handlers, a, i) ensures HandlerOwns(s.handlers, a, i) {}
    if e.FreeSlot? {
      assert HandlerOwns(s.handlers, id, s.handlers[id].slot);
      assert SomeHandlerOwns(s.handlers, s.handlers[id].slot);
      forall i | 0 <= i < MAX_CLIENTS && s'.slots[i].sock.Conn?
        ensures s'.acc == Stored(i, s'.slots[i].sock.id) || HandlerOwns(s'.handlers, s'.slots[i].sock.id, i)
      {
        assert i != s.handlers[id].slot;
      }
    }
  }

  /** Starting, moving and ending sends. */
  lemma SendKeepsBase(s: State, e: Event)
    requires Base(s) && Enabled(s, e)
    requires e.BeginBcast? || e.SkipSlot? || e.StartXfer? || e.EndBcast? || e.BeginOne? || e.EndOne?
    ensures Base(Next(s, e))
  {
    if e.BeginOne? {
      assert HandlerOwns(s.handlers, e.id, s.handlers[e.id].slot);
      assert SomeHandlerOwns(s.handlers, s.handlers[e.id].slot);
    }
  }

  lemma XferKeepsBase(s: State, e: Event)
    requires Base(s) && Enabled(s, e) && (e.Chunk? || e.XferDone? || e.XferFails?)
    ensures Base(Next(s, e))
  {}

  lemma EveryStepKeepsBase(s: State, e: Event)
    requires Base(s) && Enabled(s, e)
    ensures Base(Next(s, e))
  {
    match e
    case Accept(id) => AcceptKeepsBase(s, id);
    case StoreSock => StoreSockKeepsBase(s);
    case Spawn => SpawnKeepsBase(s);
    case CallConn(id) => CallKeepsBase(s, id, CONN, Serving);
    case CallRecv(id) => CallKeepsBase(s, id, RECV, Serving);
    case CallDis(id) => CallKeepsBase(s, id, DIS, Leaving);
    case FreeSlot(id) => LeaveKeepsBase(s, id, e);
    case CloseSock(id) => LeaveKeepsBase(s, id, e);
    case BeginBcast(_) => SendKeepsBase(s, e);
    case SkipSlot => SendKeepsBase(s, e);
    case StartXfer => SendKeepsBase(s, e);
    case EndBcast => SendKeepsBase(s, e);
    case BeginOne(_, _) => SendKeepsBase(s, e);
    case EndOne => SendKeepsBase(s, e);
    case Chunk(_) => XferKeepsBase(s, e);
    case XferDone => XferKeepsBase(s, e);
    case XferFails => XferKeepsBase(s, e);
  }

  /** There are four slots, and none is free exactly if all four are owned. */
  lemma FourSlots(s: State)
    requires Base(s)
    ensures |s.slots| == 4
    ensures FirstFree(s.slots, 0) == 4 <==> forall i | 0 <= i < 4 :: AccOwns(s.acc, i) || SomeHandlerOwns(s.handlers, i)
  {}
}
