/** A run in which a DATA packet carries the bytes of another block than its number says. */
module TftpMislabelled {
  import opened Octets
  import opened TftpFile
  import opened TftpProtocol
  import opened TftpRuns
  import opened TftpRead
  import TftpRequest

  const HOST: Addr := 1
  const HOST_PORT: Port := 2000
  const NAME: seq<Octet> := [97]

  /** A read request and ACK 1, each in one buffer. */
  function Request(): Packet {
    Packet(TftpRequest.Encode(false, NAME, OCTET[..5]), [], [0, 0, 0, 0])
  }

  function AckOne(): Packet {
    Packet(Be16(ACK) + Be16(1), [], [0, 0, 0, 0])
  }

  /** The file is found; there is a buffer for data or not, and nothing else fails. */
  function Found(file: seq<Octet>, buffer: bool): Luck {
    Luck(Some(file), true, MAX_PAYLOAD, buffer, true, true)
  }

  lemma RequestIsGood()
    ensures Received(Request()) && SBuf(Request(), 0) == RRQ
    ensures TftpRequest.Parse(Bytes(Request())) == TftpRequest.Request(NAME + [0], OCTET)
  {
    var p := Request();
    assert Flatten(p.tail) == [] && Bytes(p) == p.head;
    assert (p.head + p.beyond)[0..2] == Be16(RRQ);
    Be16RoundTrip(RRQ);
    TftpRequest.EncodeIsRequest(false, NAME, OCTET[..5]);
    TftpRequest.ParseEncoded(p.head, NAME, OCTET[..5]);
    assert OCTET[..5] + [0] == OCTET;
  }

  lemma AckIsOne()
    ensures Received(AckOne()) && SBuf(AckOne(), 0) == ACK && SBuf(AckOne(), 1) == 1
  {
    var p := AckOne();
    assert Flatten(p.tail) == [] && Bytes(p) == p.head;
    assert (p.head + p.beyond)[0..2] == Be16(ACK) && (p.head + p.beyond)[2..4] == Be16(1);
    Be16RoundTrip(ACK);
    Be16RoundTrip(1);
  }

  /** The request opens a session, but there is no buffer for block 1. */
  lemma OpensStalled(w: World, w': World, file: seq<Octet>)
    requires Initial(w) && Received(Request())
    requires w' == Step(w, Arrives(Request(), HOST, HOST_PORT), Found(file, false))
    ensures Stalled(w', 0, 0) && w'.st.addr == HOST && w'.st.port == HOST_PORT && w'.file.content == file
  {
    RequestIsGood();
    var h := Heeded(Allocated(Fresh(w)));
    var reset := World(h.st.(blknum := 1), h.out.(timers := h.out.timers + 1), h.file);
    assert w' == Freed(StartSession(reset, false, file, HOST, HOST_PORT, Found(file, false)));
    StartSessionReads(reset, file, HOST, HOST_PORT, Found(file, false));
  }

  /** ACK 1 comes all the same, and now there is a buffer. */
  lemma AcksUnsent(w: World, w': World, file: seq<Octet>)
    requires Inv(w) && Stalled(w, 0, 0) && w.st.addr == HOST && w.st.port == HOST_PORT && w.file.content == file
    requires Received(AckOne()) && w' == Step(w, Arrives(AckOne(), HOST, HOST_PORT), Found(file, true))
    ensures w'.file.content == file
    ensures w'.out.sent == One(Datagram(HOST, HOST_PORT, Data(Block(2, BlockOf(file, 1)))))
  {
    AckIsOne();
    var e := Arrives(AckOne(), HOST, HOST_PORT);
    UnreadAckShifts(w, e, Found(file, true), 0);
    StepAcks(w, e, Found(file, true), 0);
  }

  lemma TwoSteps(w: World, e1: (Event, Luck), w1: World, e2: (Event, Luck), w2: World)
    requires Initial(w) && Follows(w, e1, w1) && Follows(w1, e2, w2)
    ensures IsRun([w, w1, w2], [e1, e2])
  {}

  /** For every file: a request that finds no buffer, then ACK 1 by a peer that was sent
      nothing, and DATA 2 carries the bytes of block 1. */
  lemma UnreadAckRun(w: World, file: seq<Octet>) returns (ws: seq<World>, es: seq<(Event, Luck)>)
    requires Initial(w)
    ensures IsRun(ws, es) && |es| == 2 && ws[0] == w && ws[2].file.content == file
    ensures ws[2].out.sent == One(Datagram(HOST, HOST_PORT, Data(Block(2, BlockOf(file, 1)))))
  {
    RequestIsGood();
    AckIsOne();
    InitialKeeps(w);
    var e1 := (Arrives(Request(), HOST, HOST_PORT), Found(file, false));
    var w1 := Step(w, e1.0, e1.1);
    OpensStalled(w, w1, file);
    StepKeeps(w, e1.0, e1.1);
    var e2 := (Arrives(AckOne(), HOST, HOST_PORT), Found(file, true));
    var w2 := Step(w1, e2.0, e2.1);
    AcksUnsent(w1, w2, file);
    TwoSteps(w, e1, w1, e2, w2);
    ws, es := [w, w1, w2], [e1, e2];
  }

  /** The shortest failing input: of a file of one byte, DATA 2 carries that byte, though
      block 2 of the file, as every later one, is empty. */
  lemma MislabelledRun(w: World) returns (ws: seq<World>, es: seq<(Event, Luck)>)
    requires Initial(w)
    ensures IsRun(ws, es) && |es| == 2 && ws[2].file.content == [7] && !Labelled(ws[2])
  {
    ws, es := UnreadAckRun(w, [7]);
    assert BlockOf([7], 1) == [7];
    forall j: nat | j >= 1 ensures Block(2, [7]) != DataPacket([7], j) {
      assert j > 1 ==> BlockOf([7], j) == [];
    }
  }
}
