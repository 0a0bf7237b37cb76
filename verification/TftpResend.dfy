/** Retransmission: when a read transfer sends its block again. */
module TftpResend {
  import opened TftpProtocol
  import opened TftpRuns
  import opened TftpRead

  /** One silent event: the block is sent again exactly at a callback that ends a wait of 11
      to 15 ticks, if there is a buffer for the copy. */
  lemma SilentResend(w: World, e: Event, l: Luck, k: nat, skips: nat)
    requires Inv(w) && AtBlock(w, k, skips) && Possible(w, e) && Silent(w, e)
    ensures SendsData(Step(w, e, l)) <==> e.TimerFires? && 10 <= Elapsed(w.st) < 15 && l.sendAlloc && l.copyOk
    ensures Step(w, e, l).st.handle ==> AtBlock(Step(w, e, l), k, skips) && Step(w, e, l).file == w.file
  {}

  lemma FollowsSilent(w: World, e: (Event, Luck), w': World, k: nat, skips: nat)
    requires Inv(w) && AtBlock(w, k, skips) && Follows(w, e, w') && Silent(w, e.0)
    ensures SendsData(w') <==> e.0.TimerFires? && 10 <= Elapsed(w.st) < 15 && e.1.sendAlloc && e.1.copyOk
    ensures w'.st.handle ==> AtBlock(w', k, skips) && w'.file == w.file
  {
    SilentResend(w, e.0, e.1, k, skips);
  }

  lemma {:induction false} SilentStays(ws: seq<World>, es: seq<(Event, Luck)>, n: nat, k: nat, skips: nat)
    requires SilentPath(ws, es) && Inv(ws[0]) && AtBlock(ws[0], k, skips) && n < |es|
    ensures Inv(ws[n]) && AtBlock(ws[n], k, skips) && ws[n].file == ws[0].file
  {
    TimeoutIsExact(ws, es, n);
    if n > 0 {
      SilentStays(ws, es, n - 1, k, skips);
      assert Follows(ws[n - 1], es[n - 1], ws[n - 1 + 1]) && Silent(ws[n - 1], es[n - 1].0) && ws[n].st.handle;
      FollowsSilent(ws[n - 1], es[n - 1], ws[n], k, skips);
    }
  }

  /** Without a packet from its peer a read transfer at block k sends that block again at the
      callbacks that make the wait 11, 12, 13, 14 and 15 ticks, and at no other event: to the
      peer, under the same number, whenever there is a buffer for the copy. */
  lemma RetransmissionIsExact(ws: seq<World>, es: seq<(Event, Luck)>, n: nat, k: nat, skips: nat)
    requires SilentPath(ws, es) && Inv(ws[0]) && AtBlock(ws[0], k, skips) && n < |es|
    ensures var waited := Elapsed(ws[0].st) + Ticks(es, n + 1);
      && (SendsData(ws[n + 1]) <==> es[n].0.TimerFires? && 11 <= waited <= 15 && es[n].1.sendAlloc && es[n].1.copyOk)
      && (SendsData(ws[n + 1]) ==>
            ws[n + 1].out.sent == One(Datagram(ws[0].st.addr, ws[0].st.port, Data(Shifted(ws[0].file.content, k, skips)))))
  {
    SilentStays(ws, es, n, k, skips);
    TimeoutIsExact(ws, es, n);
    TimeoutIsExact(ws, es, n + 1);
    assert Follows(ws[n], es[n], ws[n + 1]) && Silent(ws[n], es[n].0) && ws[n].st.handle;
    FollowsSilent(ws[n], es[n], ws[n + 1], k, skips);
  }
}
