/** Where messages come from and go to: a message for one client goes to that client, and
    the log of broadcasts is the broadcasts that were made. */
module PscOnes {
  import opened Octets
  import opened PscServer
  import opened PscWire

  // --- One-client messages of a connection -------------------------------------------

  /** The loads of the items for one client, in order. */
  function OnesOf(items: seq<Item>): seq<Load> {
    if items == [] then []
    else if items[|items| - 1].broadcast == ONE_CLIENT then OnesOf(items[..|items| - 1]) + [items[|items| - 1].load]
    else OnesOf(items[..|items| - 1])
  }

  lemma OnesOfMore(items: seq<Item>, item: Item)
    ensures OnesOf(items + [item]) == if item.broadcast == ONE_CLIENT then OnesOf(items) + [item.load] else OnesOf(items)
  {
    assert (items + [item])[..|items|] == items;
  }

  /** And of the message that is under way or was cut off. */
  function OneOf(x: Option<Xfer>): seq<Load> {
    if x.Some? && x.value.item.broadcast == ONE_CLIENT then [x.value.item.load] else []
  }

  ghost function Ones(s: State, id: nat): seq<Load> {
    if id in s.peers then OnesOf(s.peers[id].done) + OneOf(Partial(s, id)) else []
  }

  /** psc_send_one for connection id finds its socket alive. */
  ghost predicate Begins(s: State, e: Event, id: nat) {
    e.BeginOne? && e.id == id && Holds(s, id) && s.slots[s.handlers[id].slot].sock != Dead
  }

  /** A message for one client is begun if and only if the socket in its slot is not dead,
      and then it is that message, to that client, from its first byte on. */
  lemma GoesToItsClient(s: State, id: nat, load: Load)
    requires Base(s) && Enabled(s, BeginOne(id, load))
    ensures var x := XferOf(Next(s, BeginOne(id, load)).lock);
      && (x.Some? <==> Begins(s, BeginOne(id, load), id))
      && (x.Some? ==> x.value.target == Conn(id) && x.value.item == Item(ONE_CLIENT, load) && x.value.sofar == 0)
  {
    var slot := s.handlers[id].slot;
    assert HandlerOwns(s.handlers, id, slot);
    assert SomeHandlerOwns(s.handlers, slot);
  }

  /** A step adds the message it begins for this connection, if any. */
  ghost predicate OnesGrow(s: State, e: Event, s': State, id: nat) {
    Ones(s', id) == if Begins(s, e, id) then Ones(s, id) + [e.load] else Ones(s, id)
  }

  // --- Steps ------------------------------------------------------------------------------

  /** The message x begins, for a connection that has no other under way and none cut off. */
  lemma XferBegins(s: State, s': State, x: Xfer, id: nat)
    requires Inv(s) && id in s.peers && XferOf(s.lock) == None && InSlot(s, x.slot, id)
    requires s' == s.(lock := s'.lock) && XferOf(s'.lock) == Some(x) && x.target == Conn(id)
    ensures Ones(s', id) == if x.item.broadcast == ONE_CLIENT then Ones(s, id) + [x.item.load] else Ones(s, id)
  {
    assert PeerOk(s, id) && Listed(s, id);
    assert Partial(s, id) == None;
    NothingMore(OnesOf(s.peers[id].done));
  }

  lemma NothingMore<T>(a: seq<T>)
    ensures a + [] == a
  {}

  lemma OneBegins(s: State, id: nat, load: Load, c: nat)
    requires Inv(s) && Enabled(s, BeginOne(id, load)) && c in s.peers
    ensures OnesGrow(s, BeginOne(id, load), Next(s, BeginOne(id, load)), c)
  {
    var s' := Next(s, BeginOne(id, load));
    GoesToItsClient(s, id, load);
    if Begins(s, BeginOne(id, load), c) {
      XferBegins(s, s', XferOf(s'.lock).value, c);
    }
  }

  lemma BroadcastBegins(s: State, c: nat)
    requires Inv(s) && Enabled(s, StartXfer) && c in s.peers
    ensures OnesGrow(s, StartXfer, Next(s, StartXfer), c)
  {
    var s' := Next(s, StartXfer);
    if Targets(s', c) {
      XferBegins(s, s', XferOf(s'.lock).value, c);
    }
  }

  lemma DoneOnes(s: State, c: nat)
    requires Inv(s) && Enabled(s, XferDone) && c in s.peers
    ensures OnesGrow(s, XferDone, Next(s, XferDone), c)
  {
    var x := XferOf(s.lock).value;
    if x.target == Conn(c) {
      TargetDone(s, Next(s, XferDone), x, c);
    } else {
      SameOnes(s, Next(s, XferDone), c);
    }
  }

  lemma TargetDone(s: State, s': State, x: Xfer, c: nat)
    requires Inv(s) && Finishes(s, s', x, c)
    ensures Ones(s', c) == Ones(s, c)
  {
    assert PeerOk(s, c) && InSlot(s, x.slot, c) && Listed(s, c);
    assert Partial(s', c) == None;
    OnesOfMore(s.peers[c].done, x.item);
    NothingMore(OnesOf(s'.peers[c].done));
    NothingMore(OnesOf(s.peers[c].done));
  }

  lemma ChunkOnes(s: State, n: nat, c: nat)
    requires Inv(s) && Enabled(s, Chunk(n)) && c in s.peers
    ensures OnesGrow(s, Chunk(n), Next(s, Chunk(n)), c)
  {
    ChunkKeeps(s, n, c);
    SameOnes(s, Next(s, Chunk(n)), c);
  }

  lemma ChunkKeeps(s: State, n: nat, c: nat)
    requires Enabled(s, Chunk(n)) && c in s.peers
    ensures var s' := Next(s, Chunk(n));
      && c in s'.peers && s'.peers[c].done == s.peers[c].done && s'.peers[c].cut == s.peers[c].cut
      && OneOf(XferOf(s'.lock)) == OneOf(XferOf(s.lock)) && (Targets(s', c) <==> Targets(s, c))
  {}

  lemma FailsOnes(s: State, c: nat)
    requires Inv(s) && Enabled(s, XferFails) && c in s.peers
    ensures OnesGrow(s, XferFails, Next(s, XferFails), c)
  {
    FailsKeeps(s, c);
    if !Targets(s, c) {
      SameOnes(s, Next(s, XferFails), c);
    }
  }

  lemma FailsKeeps(s: State, c: nat)
    requires Enabled(s, XferFails) && c in s.peers
    ensures var s' := Next(s, XferFails);
      && c in s'.peers && s'.peers[c].done == s.peers[c].done && XferOf(s'.lock) == None
      && s'.peers[c].cut == if Targets(s, c) then XferOf(s.lock) else s.peers[c].cut
  {}

  /** Everything that Ones looks at is the same. */
  lemma SameOnes(s: State, s': State, c: nat)
    requires c in s.peers && c in s'.peers && s'.peers[c].done == s.peers[c].done
    requires OneOf(Partial(s', c)) == OneOf(Partial(s, c))
    ensures Ones(s', c) == Ones(s, c)
  {}

  predicate Writing(e: Event) {
    e.StartXfer? || e.BeginOne? || e.Chunk? || e.XferDone? || e.XferFails?
  }

  lemma OtherOnes(s: State, e: Event, c: nat)
    requires Inv(s) && Enabled(s, e) && c in s.peers && !Writing(e)
    ensures OnesGrow(s, e, Next(s, e), c)
  {
    OthersKeepXfer(s, e);
    OthersKeepDone(s, e, c);
    SameOnes(s, Next(s, e), c);
  }

  lemma OthersKeepXfer(s: State, e: Event)
    requires Enabled(s, e) && !Writing(e)
    ensures XferOf(Next(s, e).lock) == XferOf(s.lock)
  {}

  lemma OthersKeepDone(s: State, e: Event, c: nat)
    requires Enabled(s, e) && !Writing(e) && c in s.peers
    ensures c in Next(s, e).peers
    ensures Next(s, e).peers[c].done == s.peers[c].done && Next(s, e).peers[c].cut == s.peers[c].cut
  {}

  lemma WritingOnes(s: State, e: Event, c: nat)
    requires Inv(s) && Enabled(s, e) && c in s.peers && (e.Chunk? || e.XferDone? || e.XferFails?)
    ensures OnesGrow(s, e, Next(s, e), c)
  {
    match e
    case Chunk(n) => ChunkOnes(s, n, c);
    case XferDone => DoneOnes(s, c);
    case XferFails => FailsOnes(s, c);
  }

  lemma BeginningOnes(s: State, e: Event, c: nat)
    requires Inv(s) && Enabled(s, e) && c in s.peers && (e.BeginOne? || e.StartXfer?)
    ensures OnesGrow(s, e, Next(s, e), c)
  {
    match e
    case BeginOne(id, load) => OneBegins(s, id, load, c);
    case StartXfer => BroadcastBegins(s, c);
  }

  lemma StepOnes(s: State, e: Event, c: nat)
    requires Inv(s) && Enabled(s, e)
    ensures OnesGrow(s, e, Next(s, e), c)
  {
    if c !in s.peers {
      NewHasNone(s, e, c);
    } else if e.BeginOne? || e.StartXfer? {
      BeginningOnes(s, e, c);
    } else if Writing(e) {
      WritingOnes(s, e, c);
    } else {
      OtherOnes(s, e, c);
    }
  }

  lemma NewHasNone(s: State, e: Event, c: nat)
    requires Inv(s) && Enabled(s, e) && c !in s.peers
    ensures OnesGrow(s, e, Next(s, e), c)
  {
    if c in Next(s, e).peers {
      assert Next(s, e).peers[c] == Peer([], [], None, 0, []) && !Targets(Next(s, e), c);
    }
  }

  // --- Runs -------------------------------------------------------------------------------

  /** The messages that were begun for connection id in the first i events. */
  ghost function Begun(ss: seq<State>, es: seq<Event>, i: nat, id: nat): seq<Load>
    requires |ss| == |es| + 1 && i < |ss|
  {
    if i == 0 then []
    else if Begins(ss[i - 1], es[i - 1], id) then Begun(ss, es, i - 1, id) + [es[i - 1].load]
    else Begun(ss, es, i - 1, id)
  }

  lemma FollowsOnes(ss: seq<State>, es: seq<Event>, n: nat, id: nat)
    requires IsRun(ss, es) && n < |es|
    ensures OnesGrow(ss[n], es[n], ss[n + 1], id)
  {
    EveryRunKeeps(ss, es, n);
    assert Steps(ss[n], es[n], ss[n + 1]);
    StepOnes(ss[n], es[n], id);
  }

  lemma {:induction false} OnesAddUp(ss: seq<State>, es: seq<Event>, i: nat, id: nat)
    requires |ss| == |es| + 1 && i < |ss| && Ones(ss[0], id) == []
    requires forall n | 0 <= n < |es| :: OnesGrow(ss[n], es[n], ss[n + 1], id)
    ensures Ones(ss[i], id) == Begun(ss, es, i, id)
  {
    if i > 0 {
      OnesAddUp(ss, es, i - 1, id);
      assert OnesGrow(ss[i - 1], es[i - 1], ss[i - 1 + 1], id);
    }
  }

  /** In every run the messages for one client that a connection has carried, then the one
      under way or cut off, are exactly those begun for that very client, in order. */
  lemma OnesAreBegun(ss: seq<State>, es: seq<Event>, i: nat, id: nat)
    requires IsRun(ss, es) && i < |ss|
    ensures Ones(ss[i], id) == Begun(ss, es, i, id)
  {
    forall n | 0 <= n < |es| ensures OnesGrow(ss[n], es[n], ss[n + 1], id) {
      FollowsOnes(ss, es, n, id);
    }
    OnesAddUp(ss, es, i, id);
  }

  /** The broadcasts made in the first i events. */
  ghost function Made(es: seq<Event>, i: nat): seq<Load>
    requires i <= |es|
  {
    if i == 0 then [] else if es[i - 1].BeginBcast? then Made(es, i - 1) + [es[i - 1].load] else Made(es, i - 1)
  }

  ghost predicate LogGrows(s: State, e: Event, s': State) {
    s'.log == if e.BeginBcast? then s.log + [e.load] else s.log
  }

  lemma StepLog(s: State, e: Event)
    requires Enabled(s, e)
    ensures LogGrows(s, e, Next(s, e))
  {}

  lemma {:induction false} LogAddsUp(ss: seq<State>, es: seq<Event>, i: nat)
    requires |ss| == |es| + 1 && i < |ss| && ss[0].log == []
    requires forall n | 0 <= n < |es| :: LogGrows(ss[n], es[n], ss[n + 1])
    ensures ss[i].log == Made(es, i)
  {
    if i > 0 {
      LogAddsUp(ss, es, i - 1);
      assert LogGrows(ss[i - 1], es[i - 1], ss[i - 1 + 1]);
    }
  }

  /** In every run the log of broadcasts is the broadcasts made, in order. */
  lemma LogIsMade(ss: seq<State>, es: seq<Event>, i: nat)
    requires IsRun(ss, es) && i < |ss|
    ensures ss[i].log == Made(es, i)
  {
    forall n | 0 <= n < |es| ensures LogGrows(ss[n], es[n], ss[n + 1]) {
      assert Steps(ss[n], es[n], ss[n + 1]);
      StepLog(ss[n], es[n]);
    }
    LogAddsUp(ss, es, i);
  }
}
