/** How many timer callbacks are pending: a session has one of its own, and one more for
    each refused request that no callback has used up yet. */
module TftpTimers {
  import opened Octets
  import opened TftpFile
  import opened TftpProtocol
  import opened TftpRuns
  import TftpRequest

  /** The pending callbacks that do not belong to an open session. */
  function Spare(w: World): int {
    w.out.timers - if w.st.handle then 1 else 0
  }

  /** A request that reaches a closed server and opens no file: the timer is queued before
      the request is looked at. */
  ghost predicate RefusedRequest(w: World, e: Event, l: Luck) {
    && e.Arrives? && Received(e.p) && !w.st.handle && (SBuf(e.p, 0) == RRQ || SBuf(e.p, 0) == WRQ)
    && var parsed := TftpRequest.Parse(Bytes(e.p));
       !(parsed.Request? && parsed.mode == OCTET && l.found.Some?)
  }

  /** A callback that finds the server closed and is not queued again. */
  ghost predicate IdleTick(w: World, e: Event) {
    e.TimerFires? && !w.st.handle
  }

  /** A short last block whose write fails: close_handle is called twice. */
  ghost predicate ClosesTwice(w: World, e: Event, l: Luck) {
    && e.Arrives? && Received(e.p) && !Foreign(w.st, e.addr, e.port) && w.st.handle && w.st.modeWrite
    && SBuf(e.p, 0) == DATA && SBuf(e.p, 1) == w.st.blknum
    && l.room < |Flatten(Body(e.p))| < MAX_PAYLOAD
  }

  ghost function SpareAfter(w: World, e: Event, l: Luck, spare: int): int {
    if RefusedRequest(w, e, l) then spare + 1
    else if IdleTick(w, e) || (ClosesTwice(w, e, l) && spare > 0) then spare - 1
    else spare
  }

  lemma SendDataSpare(w: World, l: Luck)
    requires w.st.handle && w.out.timers >= 1
    ensures Spare(SendData(w, l)) == Spare(w)
  {}

  lemma AnswerSpare(w: World, parsed: TftpRequest.Parsed, write: bool, addr: Addr, port: Port, l: Luck)
    requires !w.st.handle
    ensures Spare(AnswerRequest(w, parsed, write, addr, port, l))
         == if parsed.Request? && parsed.mode == OCTET && l.found.Some? then Spare(w) else Spare(w) + 1
  {
    if parsed.Request? && parsed.mode == OCTET && l.found.Some? && !write {
      var reset := World(w.st.(blknum := 1), w.out.(timers := w.out.timers + 1), w.file);
      var session := Called(
        World(reset.st.(handle := true, addr := addr, port := port, modeWrite := false), reset.out, Opened(l.found.value)),
        Open(false));
      SendDataSpare(session, l);
    }
  }

  lemma DataSpare(w: World, p: Packet, addr: Addr, port: Port, l: Luck)
    requires Received(p) && (w.st.handle ==> w.out.timers >= 1)
    ensures Spare(RecvData(w, p, addr, port, l)) == Spare(w)
              - if w.st.handle && w.st.modeWrite && SBuf(p, 1) == w.st.blknum
                   && l.room < |Flatten(Body(p))| < MAX_PAYLOAD && Spare(w) > 0 then 1 else 0
  {}

  lemma AckSpare(w: World, p: Packet, addr: Addr, port: Port, l: Luck)
    requires Received(p) && (w.st.handle ==> w.out.timers >= 1)
    ensures Spare(RecvAck(w, p, addr, port, l)) == Spare(w)
  {
    if w.st.handle {
      SendDataSpare(w.(st := w.st.(blknum := Next(w.st.blknum))), l);
    }
  }

  lemma StepSpare(w: World, e: Event, l: Luck)
    requires Inv(w) && Possible(w, e)
    ensures Spare(Step(w, e, l)) == SpareAfter(w, e, l, Spare(w))
  {
    if e.Arrives? && !Foreign(w.st, e.addr, e.port) {
      var heard, opcode := Heeded(Allocated(Fresh(w))), SBuf(e.p, 0);
      if opcode == RRQ || opcode == WRQ {
        if !w.st.handle {
          AnswerSpare(heard, TftpRequest.Parse(Bytes(e.p)), opcode == WRQ, e.addr, e.port, l);
        }
      } else if opcode == DATA {
        DataSpare(heard, e.p, e.addr, e.port, l);
      } else if opcode == ACK {
        AckSpare(heard, e.p, e.addr, e.port, l);
      }
    }
  }

  /** Refused requests, less the callbacks that found the server closed, less the second
      closes that found a callback to remove. */
  ghost function SpareIn(ws: seq<World>, es: seq<(Event, Luck)>, i: nat): int
    requires |ws| == |es| + 1 && i < |ws|
  {
    if i == 0 then 0 else SpareAfter(ws[i - 1], es[i - 1].0, es[i - 1].1, SpareIn(ws, es, i - 1))
  }

  lemma FollowsSpare(w: World, e: (Event, Luck), w': World)
    requires Inv(w) && Follows(w, e, w')
    ensures Spare(w') == SpareAfter(w, e.0, e.1, Spare(w))
  {
    StepSpare(w, e.0, e.1);
  }

  /** In every run the number of pending callbacks is exactly that, plus one for an open
      session. */
  lemma {:induction false} PendingIsExact(ws: seq<World>, es: seq<(Event, Luck)>, i: nat)
    requires IsRun(ws, es) && i < |ws|
    ensures ws[i].out.timers == SpareIn(ws, es, i) + if ws[i].st.handle then 1 else 0
  {
    if i > 0 {
      PendingIsExact(ws, es, i - 1);
      EveryRunKeeps(ws, es, i - 1);
      assert Follows(ws[i - 1], es[i - 1], ws[i - 1 + 1]);
      FollowsSpare(ws[i - 1], es[i - 1], ws[i]);
    }
  }

  /** An open session keeps its pending callbacks: each that fires is queued again, so with
      n spare ones the session's clock advances by n + 1 in each timer period. */
  lemma SessionKeepsPending(w: World, e: Event, l: Luck)
    requires Inv(w) && Possible(w, e) && w.st.handle && Step(w, e, l).st.handle
    ensures Step(w, e, l).out.timers == w.out.timers
    ensures e.TimerFires? ==> Elapsed(Step(w, e, l).st) == Elapsed(w.st) + 1
  {
    StepSpare(w, e, l);
  }
}
