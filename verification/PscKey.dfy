/** struct psc_key in place: the clients_used bitmask, the client sockets and the
    bodies of the critical sections that listener.c runs under sendguard. */
module PscKey {
  import opened Octets
  import opened PscFrame
  import opened PscSocket
  import opened PscServer

  /** 1u << i; clients_used never has a bit above the four slots' bits. */
  function Mask(i: nat): bv4
    requires i < MAX_CLIENTS
  {
    if i == 0 then 1 else if i == 1 then 2 else if i == 2 then 4 else 8
  }

  predicate Taken(used: bv4, i: nat)
    requires i < MAX_CLIENTS
  {
    used & Mask(i) != 0
  }

  lemma OtherBit(used: bv4, m: bv4, n: bv4)
    requires m & n == 0
    ensures (used | m) & n == used & n && (used & !m) & n == used & n
  {}

  lemma OwnBit(used: bv4, m: bv4)
    ensures (used | m) & m == m && (used & !m) & m == 0
  {}

  /** Setting or clearing a slot's bit leaves the other slots' bits alone. */
  lemma ChangeBit(used: bv4, i: nat, j: nat)
    requires i < MAX_CLIENTS && j < MAX_CLIENTS
    ensures Taken(used | Mask(i), j) <==> i == j || Taken(used, j)
    ensures Taken(used & !Mask(i), j) <==> i != j && Taken(used, j)
  {
    if i == j {
      OwnBit(used, Mask(i));
    } else {
      OtherBit(used, Mask(i), Mask(j));
    }
  }

  /** What one client sees of psc_send: nothing if its slot is not wanted; else the
      frame, or a proper prefix of it and a dead slot. */
  ghost predicate Served(slot: Slot, slot': Slot, before: seq<Octet>, after: seq<Octet>, frame: seq<Octet>) {
    if !Wanted(slot) then slot' == slot && after == before
    else
      || (slot' == slot && Wrote(before, after, frame, true))
      || (slot' == slot.(sock := Dead) && Wrote(before, after, frame, false))
  }

  class Key {
    var used: bv4
    var socks: array<Sock>

    ghost predicate Valid()
      reads this
    {
      socks.Length == MAX_CLIENTS
    }

    /** The slots as the interleaved model sees them. */
    ghost function Slots(): (r: seq<Slot>)
      requires Valid()
      reads this, socks
      ensures |r| == MAX_CLIENTS
    {
      seq(MAX_CLIENTS, i requires 0 <= i < MAX_CLIENTS reads this, socks =>
        if Valid() then Slot(Taken(used, i), socks[i]) else Slot(false, Zero))
    }

    constructor ()
      ensures Valid() && fresh(socks)
      ensures Slots() == seq(MAX_CLIENTS, i => Slot(false, Zero))
    {
      used := 0;
      socks := new Sock[MAX_CLIENTS](i => Zero);
    }

    /** psc_client_alloc: the lowest free slot, or none exactly if all are taken. */
    method Alloc() returns (i: nat)
      requires Valid()
      modifies this`used, socks
      ensures Valid() && i == FirstFree(old(Slots()), 0)
      ensures Slots() == Allocated(old(Slots()))
    {
      i := 0;
      while i < MAX_CLIENTS
        invariant i <= MAX_CLIENTS && used == old(used) && Slots() == old(Slots())
        invariant FirstFree(Slots(), 0) == FirstFree(Slots(), i)
      {
        if !Taken(used, i) {
          forall j: nat | j < MAX_CLIENTS ensures Taken(used | Mask(i), j) <==> i == j || Taken(used, j) {
            ChangeBit(used, i, j);
          }
          used := used | Mask(i);
          socks[i] := Zero;
          return;
        }
        i := i + 1;
      }
    }

    /** psc_client_free. */
    method FreeClient(i: nat)
      requires Valid() && i < MAX_CLIENTS
      modifies this`used, socks
      ensures Valid() && Slots() == Released(old(Slots()), i)
    {
      forall j: nat | j < MAX_CLIENTS ensures Taken(used & !Mask(i), j) <==> i != j && Taken(used, j) {
        ChangeBit(used, i, j);
      }
      used := used & !Mask(i);
      socks[i] := Zero;
    }

    /** psc_send: conns[i] is the stream that clients[i].sock names. */
    method Broadcast(m: Msg, conns: seq<Socket>)
      requires Valid() && Sendable(m)
      requires |conns| == MAX_CLIENTS && forall i, j | 0 <= i < j < |conns| :: conns[i] != conns[j]
      modifies socks, set c | c in conns
      ensures Valid()
      ensures forall i | 0 <= i < MAX_CLIENTS ::
                Served(old(Slots())[i], Slots()[i], old(conns[i].output), conns[i].output, Frame(m))
    {
      var idx := 0;
      while idx < MAX_CLIENTS
        invariant idx <= MAX_CLIENTS
        invariant forall i | 0 <= i < idx ::
                    Served(old(Slots())[i], Slots()[i], old(conns[i].output), conns[i].output, Frame(m))
        invariant forall i | idx <= i < MAX_CLIENTS ::
                    Slots()[i] == old(Slots())[i] && conns[i].output == old(conns[i].output)
      {
        if Taken(used, idx) && socks[idx] != Dead {
          var ok := conns[idx].SendMsg(m);
          if !ok {
            socks[idx] := Dead;
          }
        }
        idx := idx + 1;
      }
    }

    /** psc_send_one, by the owner of slot i. */
    method SendOne(i: nat, m: Msg, conn: Socket)
      requires Valid() && Sendable(m) && i < MAX_CLIENTS && Slots()[i].used
      modifies socks, conn`output
      ensures Valid() && forall j | 0 <= j < MAX_CLIENTS && j != i :: Slots()[j] == old(Slots())[j]
      ensures Served(old(Slots())[i], Slots()[i], old(conn.output), conn.output, Frame(m))
    {
      if socks[i] != Dead {
        var ok := conn.SendMsg(m);
        if !ok {
          socks[i] := Dead;
        }
      }
    }
  }
}
