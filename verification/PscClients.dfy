/** What the clients see: the messages they read from their connections, and the
    callbacks the server makes for each of them. */
module PscClients {
  import opened Octets
  import opened PscFrame
  import opened PscServer
  import opened PscWire

  // --- Every load in the system comes from a psc_sendmsg --------------------

  ghost predicate AllFrom(s: State, loads: iset<Load>) {
    && (forall i | 0 <= i < |s.log| :: s.log[i] in loads)
    && (XferOf(s.lock).Some? ==> XferOf(s.lock).value.item.load in loads)
    && (forall id | id in s.peers :: PeerFrom(s.peers[id], loads))
  }

  ghost predicate PeerFrom(p: Peer, loads: iset<Load>) {
    && (forall i | 0 <= i < |p.done| :: p.done[i].load in loads)
    && (p.cut.Some? ==> p.cut.value.item.load in loads)
  }

  ghost predicate EventFrom(e: Event, loads: iset<Load>) {
    && (e.BeginBcast? ==> e.load in loads)
    && (e.BeginOne? ==> e.load in loads)
  }

  lemma PeersFrom(s: State, e: Event, loads: iset<Load>, id: nat)
    requires Base(s) && Enabled(s, e) && AllFrom(s, loads) && id in Next(s, e).peers
    ensures PeerFrom(Next(s, e).peers[id], loads)
  {
    if e.XferDone? || e.XferFails? {
      EndedFrom(s, e, loads, id);
    } else if id in s.peers {
      assert PeerFrom(s.peers[id], loads);
      OthersKeepDone(s, e, id);
    }
  }

  lemma EndedFrom(s: State, e: Event, loads: iset<Load>, id: nat)
    requires Enabled(s, e) && AllFrom(s, loads) && (e.XferDone? || e.XferFails?) && id in s.peers
    ensures id in Next(s, e).peers && PeerFrom(Next(s, e).peers[id], loads)
  {
    assert PeerFrom(s.peers[id], loads);
  }

  lemma OthersKeepDone(s: State, e: Event, id: nat)
    requires Enabled(s, e) && !e.XferDone? && !e.XferFails? && id in s.peers && (e.Accept? ==> e.id != id)
    ensures id in Next(s, e).peers
    ensures Next(s, e).peers[id].done == s.peers[id].done && Next(s, e).peers[id].cut == s.peers[id].cut
  {}

  lemma LockFrom(s: State, e: Event, loads: iset<Load>)
    requires Base(s) && Enabled(s, e) && AllFrom(s, loads) && EventFrom(e, loads)
    ensures var s' := Next(s, e);
            && (forall i | 0 <= i < |s'.log| :: s'.log[i] in loads)
            && (XferOf(s'.lock).Some? ==> XferOf(s'.lock).value.item.load in loads)
  {}

  lemma StepFrom(s: State, e: Event, loads: iset<Load>)
    requires Base(s) && Enabled(s, e) && AllFrom(s, loads) && EventFrom(e, loads)
    ensures AllFrom(Next(s, e), loads)
  {
    LockFrom(s, e, loads);
    forall id | id in Next(s, e).peers ensures PeerFrom(Next(s, e).peers[id], loads) {
      PeersFrom(s, e, loads, id);
    }
  }

  lemma {:induction false} RunFrom(ss: seq<State>, es: seq<Event>, loads: iset<Load>, i: nat)
    requires IsRun(ss, es) && i < |ss| && forall n | 0 <= n < |es| :: EventFrom(es[n], loads)
    ensures AllFrom(ss[i], loads)
  {
    if i > 0 {
      RunFrom(ss, es, loads, i - 1);
      EveryRunKeeps(ss, es, i - 1);
      assert Steps(ss[i - 1], es[i - 1], ss[i - 1 + 1]) && EventFrom(es[i - 1], loads);
      StepFrom(ss[i - 1], es[i - 1], loads);
    }
  }

  /** Loads that are the frame of their message, as psc_sendmsg builds them. */
  ghost function Framed(): iset<Load> {
    iset load: Load | Sendable(load.m) && load.bytes == Frame(load.m)
  }

  // --- What a client reads ---------------------------------------------------

  function Messages(done: seq<Item>): (ms: seq<Msg>)
    ensures |ms| == |done| && forall i | 0 <= i < |done| :: ms[i] == done[i].load.m
  {
    seq(|done|, i requires 0 <= i < |done| => done[i].load.m)
  }

  lemma {:induction false} FramesAppend(ms: seq<Msg>, m: Msg)
    requires AllSendable(ms) && Sendable(m)
    ensures AllSendable(ms + [m]) && Frames(ms + [m]) == Frames(ms) + Frame(m)
    decreases |ms|
  {
    if ms == [] {
      assert ms + [m] == [m] && [m][1..] == [];
    } else {
      var rest := ms[1..];
      FramesAppend(rest, m);
      assert (ms + [m])[1..] == rest + [m];
      Associates(Frame(ms[0]), Frames(rest), Frame(m));
    }
  }

  lemma Associates<T>(a: seq<T>, b: seq<T>, c: seq<T>)
    ensures a + (b + c) == (a + b) + c
  {}

  lemma {:induction false} FramesOfMessages(done: seq<Item>)
    requires forall i | 0 <= i < |done| :: done[i].load in Framed()
    ensures AllSendable(Messages(done)) && FramesOf(done) == Frames(Messages(done))
    decreases |done|
  {
    if done != [] {
      var rest, last := done[..|done| - 1], done[|done| - 1];
      FramesOfMessages(rest);
      assert last.load in Framed();
      FramesAppend(Messages(rest), last.load.m);
      assert Messages(done) == Messages(rest) + [last.load.m];
    }
  }

  lemma {:induction false} CompleteWithPart(ms: seq<Msg>, m: Msg, sofar: nat)
    requires AllSendable(ms) && Sendable(m) && sofar < |Frame(m)|
    ensures AllSendable(ms + [m]) && Complete(ms + [m], |Frames(ms)| + sofar) == |ms|
    decreases |ms|
  {
    if ms != [] {
      assert (ms + [m])[1..] == ms[1..] + [m];
      CompleteWithPart(ms[1..], m, sofar);
    }
  }

  lemma PartOfLast<T>(a: seq<T>, b: seq<T>, k: nat)
    requires k <= |b|
    ensures (a + b)[..|a| + k] == a + Slice(b, 0, k)
  {}

  lemma AllButLast<T>(a: seq<T>, x: T)
    ensures (a + [x])[..|a|] == a
  {}

  /** Whole frames followed by part of one are read as exactly the whole messages. */
  lemma ReadsWholeMessages(ms: seq<Msg>, m: Msg, sofar: nat, max: nat)
    requires AllSendable(ms) && Sendable(m) && sofar < |Frame(m)|
    ensures Deliver(Frames(ms) + Slice(Frame(m), 0, sofar), max) == CutAll(ms, max)
  {
    FramesAppend(ms, m);
    CompleteWithPart(ms, m, sofar);
    DeliversWholeFrames(ms + [m], |Frames(ms)| + sofar, max);
    PartOfLast(Frames(ms), Frame(m), sofar);
    AllButLast(ms, m);
  }

  /** In every reachable state, a client that reads its connection by the PSC
      framing gets exactly the messages whose sending has been finished for it, in
      the order in which they were sent; a message under way or cut off is not seen. */
  lemma ClientsReadWhatWasSent(ss: seq<State>, es: seq<Event>, i: nat, id: nat, max: nat)
    requires IsRun(ss, es) && i < |ss| && id in ss[i].peers
    requires forall n | 0 <= n < |es| :: EventFrom(es[n], Framed())
    ensures var p, x := ss[i].peers[id], Partial(ss[i], id);
            Deliver(p.bytes, max) == CutAll(
              if x.Some? && x.value.sofar == |x.value.item.load.bytes| then Messages(p.done) + [x.value.item.load.m]
              else Messages(p.done), max)
  {
    EveryRunKeeps(ss, es, i);
    RunFrom(ss, es, Framed(), i);
    var s := ss[i];
    assert PeerOk(s, id) && PeerFrom(s.peers[id], Framed());
    ReadsPeer(s.peers[id], Partial(s, id), max);
  }

  lemma ReadsPeer(p: Peer, x: Option<Xfer>, max: nat)
    requires forall i | 0 <= i < |p.done| :: p.done[i].load in Framed()
    requires x.Some? ==> x.value.item.load in Framed() && Fits(x.value)
    requires p.bytes == FramesOf(p.done) + Written(x)
    ensures Deliver(p.bytes, max) == CutAll(
              if x.Some? && x.value.sofar == |x.value.item.load.bytes| then Messages(p.done) + [x.value.item.load.m]
              else Messages(p.done), max)
  {
    FramesOfMessages(p.done);
    var ms := Messages(p.done);
    if x.None? {
      assert p.bytes == Frames(ms);
      RoundTrip(ms, max);
    } else if x.value.sofar == |x.value.item.load.bytes| {
      FramesAppend(ms, x.value.item.load.m);
      assert Written(x) == Frame(x.value.item.load.m);
      RoundTrip(ms + [x.value.item.load.m], max);
    } else {
      ReadsWholeMessages(ms, x.value.item.load.m, x.value.sofar, max);
    }
  }

  // --- Callbacks -------------------------------------------------------------

  /** What the callbacks of a connection look like at each stage of its handler. */
  ghost predicate Greeted(calls: seq<Callback>) {
    |calls| >= 1 && calls[0] == CONN && forall i | 1 <= i < |calls| :: calls[i] == RECV
  }

  /** CONN, then any number of RECV, then DIS. */
  ghost predicate Finished(calls: seq<Callback>) {
    && |calls| >= 2 && calls[0] == CONN && calls[|calls| - 1] == DIS
    && forall i | 1 <= i < |calls| - 1 :: calls[i] == RECV
  }

  ghost predicate Traced(s: State, id: nat)
    requires id in s.peers
  {
    var calls := s.peers[id].calls;
    if !s.acc.Waiting? && s.acc.id == id then calls == [] && id !in s.handlers
    else if id in s.handlers && s.handlers[id].Owns? then
      match s.handlers[id].stage
      case Entered => calls == []
      case Serving => Greeted(calls)
      case Leaving => Finished(calls)
    else Finished(calls)
  }

  ghost predicate Traces(s: State) {
    forall id | id in s.peers :: Traced(s, id)
  }

  lemma CallTraced(s: State, id: nat, c: Callback, stage: Stage)
    requires Pool(s) && Traces(s) && Holds(s, id) && id in s.peers
    requires match s.handlers[id].stage
             case Entered => c == CONN && stage == Serving
             case Serving => (c == RECV && stage == Serving) || (c == DIS && stage == Leaving)
             case Leaving => false
    ensures Traces(WithCall(s, id, c, stage))
  {
    var s' := WithCall(s, id, c, stage);
    assert Traced(s, id);
    forall k | k in s'.peers ensures Traced(s', k) {
      assert Traced(s, k);
    }
  }

  lemma ThreadTraced(s: State, e: Event, id: nat)
    requires Pool(s) && Traces(s) && Enabled(s, e)
    requires e.Accept? || e.StoreSock? || e.Spawn? || e.FreeSlot? || e.CloseSock?
    requires id in Next(s, e).peers
    ensures Traced(Next(s, e), id)
  {
    if id in s.peers {
      assert Traced(s, id);
    }
  }

  lemma SendTraced(s: State, e: Event, id: nat)
    requires Traces(s) && Enabled(s, e) && id in s.peers
    requires e.BeginBcast? || e.SkipSlot? || e.StartXfer? || e.EndBcast? || e.BeginOne? || e.EndOne?
          || e.Chunk? || e.XferDone? || e.XferFails?
    ensures id in Next(s, e).peers && Traced(Next(s, e), id)
  {
    assert Traced(s, id);
    var s' := Next(s, e);
    assert s'.handlers == s.handlers && s'.acc == s.acc && s'.peers[id].calls == s.peers[id].calls;
  }

  lemma OtherTraced(s: State, e: Event)
    requires Pool(s) && Traces(s) && Enabled(s, e) && !e.CallConn? && !e.CallRecv? && !e.CallDis?
    ensures Traces(Next(s, e))
  {
    var s' := Next(s, e);
    if e.Accept? || e.StoreSock? || e.Spawn? || e.FreeSlot? || e.CloseSock? {
      forall id | id in s'.peers ensures Traced(s', id) {
        ThreadTraced(s, e, id);
      }
    } else {
      assert s'.peers.Keys == s.peers.Keys;
      forall id | id in s'.peers ensures Traced(s', id) {
        SendTraced(s, e, id);
      }
    }
  }

  lemma StepTraced(s: State, e: Event)
    requires Pool(s) && Traces(s) && Enabled(s, e)
    ensures Traces(Next(s, e))
  {
    match e
    case CallConn(id) => CallTraced(s, id, CONN, Serving);
    case CallRecv(id) => CallTraced(s, id, RECV, Serving);
    case CallDis(id) => CallTraced(s, id, DIS, Leaving);
    case _ => OtherTraced(s, e);
  }

  /** Every occupancy of a slot makes the callbacks CONN, RECV*, DIS: complete once
      the connection has no handler any more, a prefix of it before. */
  lemma {:induction false} EveryOccupancyIsTraced(ss: seq<State>, es: seq<Event>, i: nat)
    requires IsRun(ss, es) && i < |ss|
    ensures Traces(ss[i])
  {
    if i > 0 {
      EveryOccupancyIsTraced(ss, es, i - 1);
      EveryRunKeeps(ss, es, i - 1);
      assert Steps(ss[i - 1], es[i - 1], ss[i - 1 + 1]);
      StepTraced(ss[i - 1], es[i - 1]);
    }
  }

  // --- After the slot is freed ----------------------------------------------------

  /** The connection has given its slot back, or was never given one to keep. */
  ghost predicate Gone(s: State, id: nat) {
    && id in s.peers && (s.acc.Waiting? || s.acc.id != id)
    && (id in s.handlers ==> s.handlers[id].Closing?)
  }

  /** A step of this connection's handler that touches its slot. */
  ghost predicate TouchesSlot(e: Event, id: nat) {
    e == CallConn(id) || e == CallRecv(id) || e == CallDis(id) || e == FreeSlot(id) || (e.BeginOne? && e.id == id)
  }

  lemma GoneStays(s: State, e: Event, id: nat)
    requires Enabled(s, e) && Gone(s, id)
    ensures Gone(Next(s, e), id) && !TouchesSlot(e, id)
  {}

  lemma GoneHasNoSlot(s: State, id: nat, i: int)
    requires Base(s) && Gone(s, id)
    ensures !InSlot(s, i, id) && !HandlerOwns(s.handlers, id, i)
  {}

  lemma FreedIsGone(s: State, id: nat)
    requires Pool(s) && Enabled(s, FreeSlot(id))
    ensures Gone(Next(s, FreeSlot(id)), id)
  {}

  lemma {:induction false} GoneFromThen(ss: seq<State>, es: seq<Event>, i: nat, j: nat, id: nat)
    requires IsRun(ss, es) && i < j < |ss| && es[i] == FreeSlot(id)
    ensures Gone(ss[j], id)
  {
    assert Steps(ss[j - 1], es[j - 1], ss[j - 1 + 1]);
    if i == j - 1 {
      EveryRunKeeps(ss, es, i);
      FreedIsGone(ss[i], id);
    } else {
      GoneFromThen(ss, es, i, j - 1, id);
      GoneStays(ss[j - 1], es[j - 1], id);
    }
  }

  /** Over the rest of any run, a handler that has freed its slot makes no callback and no
      send of its own and frees nothing again, and its connection is in no slot. */
  lemma NoSlotAfterFree(ss: seq<State>, es: seq<Event>, i: nat, j: nat, id: nat)
    requires IsRun(ss, es) && i < j < |ss| && es[i] == FreeSlot(id)
    ensures !Listed(ss[j], id) && !exists k :: HandlerOwns(ss[j].handlers, id, k)
    ensures j < |es| ==> !TouchesSlot(es[j], id)
  {
    GoneFromThen(ss, es, i, j, id);
    EveryRunKeeps(ss, es, j);
    forall k ensures !InSlot(ss[j], k, id) && !HandlerOwns(ss[j].handlers, id, k) {
      GoneHasNoSlot(ss[j], id, k);
    }
    if j < |es| {
      assert Steps(ss[j], es[j], ss[j + 1]);
      GoneStays(ss[j], es[j], id);
    }
  }
}
