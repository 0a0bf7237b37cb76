/** The server object over time: whatever it is served, it goes through a run. */
module TftpService {
  import opened TftpProtocol
  import opened TftpRuns
  import opened TftpServer

  /** One event, if it can happen now: a timer callback needs one that is queued. */
  method Handle(server: Server, e: Event, l: Luck) returns (done: bool)
    requires e.Arrives? ==> Received(e.p)
    modifies server, server.sd
    ensures done <==> Possible(old(server.Abs()), e)
    ensures server.Abs() == if done then Step(old(server.Abs()), e, l) else old(server.Abs())
  {
    if e.TimerFires? && server.out.timers == 0 {
      return false;
    }
    done := true;
    server.out := server.out.(sent := Nothing);
    match e
    case Arrives(p, addr, port) => server.Recv(p, addr, port, l);
    case TimerFires => server.Tick(l);
  }

  /** A new server and any list of packets and timer callbacks: what happens is a run, so
      all that is proved of runs holds of the object. */
  method Serve(events: seq<(Event, Luck)>) returns (server: Server, ghost ws: seq<World>, ghost es: seq<(Event, Luck)>)
    requires forall i | 0 <= i < |events| && events[i].0.Arrives? :: Received(events[i].0.p)
    ensures IsRun(ws, es) && ws[|es|] == server.Abs() && Inv(server.Abs())
  {
    server := new Server();
    ws, es := [server.Abs()], [];
    for n := 0 to |events|
      invariant fresh(server) && fresh(server.sd)
      invariant IsRun(ws, es) && ws[|es|] == server.Abs()
    {
      var done := Handle(server, events[n].0, events[n].1);
      if done {
        RunGoesOn(ws, es, events[n], server.Abs());
        ws, es := ws + [server.Abs()], es + [events[n]];
      }
    }
    EveryRunKeeps(ws, es, |es|);
  }
}
