/** What every run of the TFTP server keeps: the order of file callbacks, the
    balance of packet buffers, and the exact retry and timeout clock. */
module TftpRuns {
  import opened Octets
  import opened TftpFile
  import opened TftpProtocol
  import TftpRequest

  function PhaseOf(st: Record): Phase {
    if !st.handle then Shut else if st.modeWrite then Writing else Reading
  }

  function Held(st: Record): nat {
    if st.lastData.Some? then 1 else 0
  }

  /** inFlight counts buffers the caller of the current function still owns. */
  ghost predicate Disciplined(w: World, inFlight: nat) {
    && w.out.phase == PhaseOf(w.st)
    && w.out.allocs == w.out.frees + inFlight + Held(w.st)
    && (!w.st.handle ==> w.st.lastData.None? && w.st.addr == ANY && w.st.port == 0)
    && (w.st.handle && w.st.modeWrite ==> w.st.lastData.None?)
  }

  function Elapsed(st: Record): int {
    st.timer - st.lastPkt
  }

  ghost predicate Clocked(w: World) {
    w.st.handle ==>
      && w.out.timers >= 1
      && 0 <= Elapsed(w.st)
      && w.st.retries == Max(0, Elapsed(w.st) - TIMEOUT_TICKS)
      && w.st.retries <= MAX_RETRIES
      && (w.st.lastData.None? ==> Elapsed(w.st) <= TIMEOUT_TICKS)
  }

  ghost predicate Inv(w: World) {
    Disciplined(w, 0) && Clocked(w) && !w.out.sent.Many?
  }

  /** Between the address filter and the release of the packet. */
  ghost predicate Handled(w: World) {
    Disciplined(w, 1) && Clocked(w) && Elapsed(w.st) == 0 && w.st.retries == 0 && !w.out.sent.Many?
  }

  /** The same before anything is sent. */
  ghost predicate Heard(w: World) {
    Handled(w) && w.out.sent.Nothing?
  }

  lemma CloseHandleKeeps(w: World, inFlight: nat)
    requires w.st.handle ==> w.out.phase == PhaseOf(w.st)
    requires !w.st.handle ==> w.out.phase == Shut
    requires w.out.allocs == w.out.frees + inFlight + Held(w.st)
    ensures Disciplined(CloseHandle(w), inFlight) && !CloseHandle(w).st.handle
    ensures Elapsed(CloseHandle(w).st) == Elapsed(w.st) && CloseHandle(w).st.retries == w.st.retries
    ensures CloseHandle(w).out.sent == w.out.sent
  {
  }

  lemma SendErrorKeeps(w: World, l: Luck, addr: Addr, port: Port, code: nat)
    ensures var r := SendError(w, l, addr, port, code);
            && r.st == w.st && r.out.phase == w.out.phase && r.out.timers == w.out.timers
            && r.out.allocs - r.out.frees == w.out.allocs - w.out.frees
            && r.file == w.file && (w.out.sent.Nothing? ==> !r.out.sent.Many?)
  {}

  lemma SendDataKeeps(w: World, l: Luck)
    requires Heard(w) && w.st.handle && !w.st.modeWrite
    ensures Handled(SendData(w, l))
  {
    if l.dataAlloc && !l.readOk {
      var called := Called(Allocated(if w.st.lastData.Some? then Freed(w) else w), Read);
      var held := called.(st := called.st.(lastData := Some(Block(w.st.blknum, []))));
      SendErrorKeeps(held, l, w.st.addr, w.st.port, ACCESS_VIOLATION);
      CloseHandleKeeps(SendError(held, l, w.st.addr, w.st.port, ACCESS_VIOLATION), 1);
    }
  }

  lemma RecvRequestKeeps(w: World, p: Packet, addr: Addr, port: Port, l: Luck)
    requires Received(p) && Heard(w)
    ensures Handled(RecvRequest(w, p, addr, port, l))
  {
    AnswerRequestKeeps(w, TftpRequest.Parse(Bytes(p)), SBuf(p, 0) == WRQ, addr, port, l);
  }

  lemma AnswerRequestKeeps(w: World, parsed: TftpRequest.Parsed, write: bool, addr: Addr, port: Port, l: Luck)
    requires Heard(w)
    ensures Handled(AnswerRequest(w, parsed, write, addr, port, l))
  {
    if w.st.handle {
      ErrorKeepsHandled(w, l, addr, port, ACCESS_VIOLATION);
    } else {
      var timed := w.(out := w.out.(timers := w.out.timers + 1));
      var reset := timed.(st := w.st.(blknum := 1));
      if !parsed.Request? {
        ErrorKeepsHandled(timed, l, addr, port, ACCESS_VIOLATION);
      } else if parsed.mode != OCTET || l.found.None? {
        ErrorKeepsHandled(reset, l, addr, port, FILE_NOT_FOUND);
      } else {
        StartSessionKeeps(reset, write, l.found.value, addr, port, l);
      }
    }
  }

  lemma ErrorKeepsHandled(w: World, l: Luck, addr: Addr, port: Port, code: nat)
    requires Heard(w)
    ensures Handled(SendError(w, l, addr, port, code))
  {}

  lemma StartSessionKeeps(w: World, write: bool, found: seq<Octet>, addr: Addr, port: Port, l: Luck)
    requires Heard(w) && !w.st.handle && w.out.timers >= 1
    ensures Handled(StartSession(w, write, found, addr, port, l))
  {
    if !write {
      var session := Called(
        World(w.st.(handle := true, addr := addr, port := port, modeWrite := write),
              w.out, Opened(found)),
        Open(write));
      SendDataKeeps(session, l);
    }
  }

  lemma RecvDataKeeps(w: World, p: Packet, addr: Addr, port: Port, l: Luck)
    requires Received(p) && Heard(w)
    ensures Handled(RecvData(w, p, addr, port, l))
  {
    if w.st.handle && w.st.modeWrite && SBuf(p, 1) == w.st.blknum {
      var body := Flatten(Body(p));
      var called := Called(w, Write);
      var stored := called.(file := AfterWrite(w.file, body[..Min(l.room, |body|)]));
      assert Heard(stored);
      StoredAnswerKeeps(stored, SBuf(p, 1), |body|, addr, port, l);
    }
  }

  /** Everything RecvData does after the write callback, failed writes included. */
  lemma StoredAnswerKeeps(w: World, number: Word16, size: nat, addr: Addr, port: Port, l: Luck)
    requires Heard(w) && w.st.handle && w.st.modeWrite
    ensures var answered := if size <= l.room then SendAck(w, l, number)
                            else CloseHandle(SendError(w, l, addr, port, ACCESS_VIOLATION));
            Handled(if size < MAX_PAYLOAD then CloseHandle(answered)
                  else answered.(st := answered.st.(blknum := Next(w.st.blknum))))
  {
    SendErrorKeeps(w, l, addr, port, ACCESS_VIOLATION);
    CloseHandleKeeps(SendError(w, l, addr, port, ACCESS_VIOLATION), 1);
    CloseHandleKeeps(CloseHandle(SendError(w, l, addr, port, ACCESS_VIOLATION)), 1);
    CloseHandleKeeps(SendAck(w, l, number), 1);
  }

  lemma RecvAckKeeps(w: World, p: Packet, addr: Addr, port: Port, l: Luck)
    requires Received(p) && Heard(w)
    ensures Handled(RecvAck(w, p, addr, port, l))
  {
    if w.st.handle && !w.st.modeWrite {
      CloseHandleKeeps(w, 1);
      SendDataKeeps(w.(st := w.st.(blknum := Next(w.st.blknum))), l);
    }
  }

  lemma DispatchKeeps(w: World, p: Packet, addr: Addr, port: Port, l: Luck)
    requires Received(p) && Heard(w)
    ensures Handled(Dispatch(w, p, addr, port, l))
  {
    RecvRequestKeeps(w, p, addr, port, l);
    RecvDataKeeps(w, p, addr, port, l);
    RecvAckKeeps(w, p, addr, port, l);
  }

  lemma TickKeeps(w: World, l: Luck)
    requires w.out.timers > 0 && Inv(w) && w.out.sent.Nothing?
    ensures Inv(Tick(w, l))
  {
    if w.st.handle {
      CloseHandleKeeps(World(w.st.(timer := w.st.timer + 1), w.out, w.file), 0);
    }
  }

  lemma RecvKeeps(w: World, p: Packet, addr: Addr, port: Port, l: Luck)
    requires Received(p) && Inv(w) && w.out.sent.Nothing?
    ensures Inv(Recv(w, p, addr, port, l))
  {
    var arrived := Allocated(w);
    SendErrorKeeps(arrived, l, addr, port, ACCESS_VIOLATION);
    var heard := Heeded(arrived);
    assert Heard(heard);
    DispatchKeeps(heard, p, addr, port, l);
    FreedKeeps(Dispatch(heard, p, addr, port, l));
  }

  lemma FreedKeeps(w: World)
    requires Handled(w)
    ensures Inv(Freed(w))
  {}

  lemma InitialKeeps(w: World)
    requires Initial(w)
    ensures Inv(w)
  {}

  /** A run: the worlds visited, starting from the initialised server. */
  ghost predicate IsRun(ws: seq<World>, es: seq<(Event, Luck)>) {
    && |ws| == |es| + 1
    && Initial(ws[0])
    && forall i | 0 <= i < |es| :: Follows(ws[i], es[i], ws[i + 1])
  }

  ghost predicate Follows(w: World, e: (Event, Luck), w': World) {
    Possible(w, e.0) && w' == Step(w, e.0, e.1)
  }

  /** Over every run of packets, ticks, allocation failures and file errors: opens
      and closes alternate with reads and writes only in between, no step sends two
      datagrams, buffers balance, a closed server has neither buffer nor peer, and the retry clock is exact. */
  lemma {:induction false} EveryRunKeeps(ws: seq<World>, es: seq<(Event, Luck)>, i: nat)
    requires IsRun(ws, es) && i < |ws|
    ensures Inv(ws[i])
  {
    if i == 0 {
      InitialKeeps(ws[0]);
    } else {
      EveryRunKeeps(ws, es, i - 1);
      assert Follows(ws[i - 1], es[i - 1], ws[i]);
      StepKeeps(ws[i - 1], es[i - 1].0, es[i - 1].1);
    }
  }

  lemma StepKeeps(w: World, e: Event, l: Luck)
    requires Inv(w) && Possible(w, e)
    ensures Inv(Step(w, e, l))
  {
    match e
    case Arrives(p, addr, port) => RecvKeeps(Fresh(w), p, addr, port, l);
    case TimerFires => TickKeeps(Fresh(w), l);
  }

  /** How many ticks of silence an open transfer survives. */
  function Patience(st: Record): nat {
    if st.lastData.Some? then 15 else 10
  }

  /** An event that is not a packet from the peer of the session open in w. */
  ghost predicate Silent(w: World, e: Event) {
    e.Arrives? ==> Foreign(w.st, e.addr, e.port)
  }

  ghost predicate SameSession(w: World, w': World) {
    && w'.st.handle && w'.out.phase == w.out.phase && w'.out.blocksRead == w.out.blocksRead
    && w'.st.(timer := w.st.timer, retries := w.st.retries) == w.st
  }

  /** Timer callbacks among the first n events. */
  ghost function Ticks(es: seq<(Event, Luck)>, n: nat): nat
    requires n <= |es|
  {
    if n == 0 then 0 else Ticks(es, n - 1) + if es[n - 1].0.TimerFires? then 1 else 0
  }

  /** A path of silent events from an open session, stopping at the close if there is one. */
  ghost predicate SilentPath(ws: seq<World>, es: seq<(Event, Luck)>) {
    && |ws| == |es| + 1
    && forall i | 0 <= i < |es| ::
         && Follows(ws[i], es[i], ws[i + 1])
         && Silent(ws[i], es[i].0)
         && ws[i].st.handle
  }

  /** One silent event: another host's packet changes nothing, a tick advances the
      clock by one, and the session closes exactly when its patience runs out. */
  lemma SilentStep(w: World, e: Event, l: Luck)
    requires Inv(w) && w.st.handle && Possible(w, e) && Silent(w, e)
    ensures e.Arrives? ==> SameSession(w, Step(w, e, l)) && Step(w, e, l).st == w.st
    ensures e.TimerFires? && Elapsed(w.st) < Patience(w.st) ==>
              SameSession(w, Step(w, e, l)) && Step(w, e, l).st.timer == w.st.timer + 1
    ensures e.TimerFires? && Elapsed(w.st) == Patience(w.st) ==> !Step(w, e, l).st.handle
    ensures Elapsed(w.st) <= Patience(w.st)
  {}

  /** Without a packet from the peer, a transfer that has waited e ticks is still
      the same open session after n more ticks iff e + n is at most 10 when no data
      buffer is held and at most 15 when one is: it closes at tick 11 or tick 16. */
  lemma {:induction false} TimeoutIsExact(ws: seq<World>, es: seq<(Event, Luck)>, n: nat)
    requires SilentPath(ws, es) && Inv(ws[0]) && ws[0].st.handle && n <= |es|
    ensures var waited := Elapsed(ws[0].st) + Ticks(es, n);
            && Inv(ws[n])
            && (ws[n].st.handle <==> waited <= Patience(ws[0].st))
            && (ws[n].st.handle ==> SameSession(ws[0], ws[n]) && Elapsed(ws[n].st) == waited)
            && (!ws[n].st.handle ==> n == |es| && waited == Patience(ws[0].st) + 1)
  {
    if n > 0 {
      TimeoutIsExact(ws, es, n - 1);
      var w, e := ws[n - 1], es[n - 1];
      assert Follows(w, e, ws[n - 1 + 1]) && Silent(w, e.0) && w.st.handle;
      SilentStep(w, e.0, e.1);
      StepKeeps(w, e.0, e.1);
    }
  }

  /** A run and one more step of it. */
  lemma RunGoesOn(ws: seq<World>, es: seq<(Event, Luck)>, e: (Event, Luck), w': World)
    requires IsRun(ws, es) && Follows(ws[|es|], e, w')
    ensures IsRun(ws + [w'], es + [e])
  {
    var ws', es' := ws + [w'], es + [e];
    forall i | 0 <= i < |es'| ensures Follows(ws'[i], es'[i], ws'[i + 1]) {
      if i < |es| {
        assert Follows(ws[i], es[i], ws[i + 1]);
      }
    }
  }
}
