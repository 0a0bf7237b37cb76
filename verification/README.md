# Verified models of the accelerator monitor's firmware

The repository is firmware for an accelerator monitor: C on FreeRTOS and lwIP,
and VHDL gateware. This project models its self-contained state machines in
Dafny and proves what they do over whole runs. `dafny verify dfyconfig.toml`
checks everything.

Code that updates state in place is modelled by classes and loops. Each method is
proved to leave the state that a specification function gives, and the lemmas
about whole runs are about those functions.

**TFTP server** (`TftpRequest`, `TftpFile`, `TftpProtocol`, `TftpServer`,
`TftpRuns`, `TftpTimers`, `TftpRead`, `TftpSession`, `TftpResend`, `TftpMislabelled`,
`TftpWrite`, `TftpWire`, `TftpHistory`, `TftpCard`, `TftpService`). The static record of `tftp_server.c` is the
class `Server`; `TftpProtocol` gives the state after each C function, including
what it does outside the record: queued timer callbacks, packet buffers, file
callbacks and datagrams. A step is one packet or one timer callback. How
allocations, reads, writes and opens turn out is an input of each step. `TftpWrite`
adds a stop-and-wait client, two channels that keep order but lose and duplicate,
and other hosts that send anything at all. `TftpSession` is about what a reading peer
must do to get its file, `TftpCard` about what a writing one leaves on the card.

**PSC message server** (`PscFrame`, `PscSocket`, `PscServer`, `PscKey`, `PscWire`,
`PscOnes`, `PscClients`). `PscSocket` holds the send and receive loops of `pscmsg.c` over a
stream broken into arbitrary pieces. `PscKey` holds the critical sections of
`listener.c` on the client bitmask and sockets. `PscServer` is the same server as
interleaved steps of the acceptor, the client handlers and any number of
broadcasters, each partial write a step of its own. A connection has an id of its
own, and what is claimed about a slot starts when the slot's socket is stored.

**Gateware** (`EventTrigger`, `EventSpacing`, `Timestamp`, `SpiEngine`, `SpiTable`, `I2cMonitor`,
`I2cBus`, `I2cChips`). A clock edge is one step in which every register reads old values.
`SpiTable` joins the software loop of `control.c` to the SPI engine and a
receiver on its wires; a register write takes any number of clocks up to 1432 and
`usleep(50)` at least 5000. `I2cBus` watches the I2C wires with a decoder that
knows only `scl` and `sda`, and `I2cChips` adds chips that know only its bytes; the fast and the slow clock interleave in any way that
has at least one fast edge between two slow ones.

**Parsers and refinements** (`NetConf`, `PagedWrites`, `Waveform`): the NET.CNF
reader with its in-place tokenizer and MAC parser, the paged register writer
against flat 16-bit writes, and the waveform unpacking.

`Octets` and `Binary` hold machine words, byte order and binary digits.

## Findings

- A file written over a longer one keeps the old tail, because it is opened without
  truncation (`src/sw/src/tftp_handler.c:22`): after a completed transfer the card holds
  exactly the client's file if and only if the file found when it began was not longer,
  `TftpCard.FinalFileIsExactIff`; `TftpCard.LongerOldFileSurvives` is a whole history in
  which it does not.
- When there is no buffer for the next block of a read transfer, its number is counted
  already and its bytes are not read yet (`src/sw/src/tftp_server.c:348-350`). Each ACK of
  such an unsent number puts the numbers of all later blocks of the session one further
  ahead: in every run the k-th block is sent under the number k plus the count of such
  ACKs, `TftpRead.EveryRunCounts`. A packet then carries the bytes of its number if and
  only if the file has the same bytes in a block of that number, `TftpRead.LabelledInRunIff`
  and, for a single step, `TftpRead.LabelledIff`. `TftpMislabelled.MislabelledRun` is a run
  in which it does not; with a peer that acknowledges only what it was sent there is none,
  `TftpSession.EveryHonestRun`.
- A request that reaches a closed server queues a timer callback before it is looked at
  (`src/sw/src/tftp_server.c:238`), and a refused one leaves it there. Pending callbacks are
  exactly one for an open session, plus the refused requests, less the callbacks that found
  the server closed, less one for each short block whose failed write closes twice
  (`src/sw/src/tftp_server.c:303-309`): `TftpTimers.PendingIsExact`. They are all queued again while a session
  is open, `TftpTimers.SessionKeepsPending`, so after n refused requests its clock runs
  n + 1 times as fast and it times out that much sooner.
- `psc_sendmsgsingle` computes its length in 32 bits; the message is received as sent
  exactly when the sum does not wrap (`src/sw/src/pscmsg.c:113`):
  `PscFrame.SingleRoundTripIff`.
- `psc_recvskip` goes on after a receive error (`src/sw/src/pscmsg.c:70-72`), and the
  accepted sockets have a receive timeout (`src/sw/src/listener.c:148-157`). Its last
  receive fits the buffer of 128 bytes exactly if at most 128 bytes were left to skip
  at the error, or at most 128 arrive before the next: `PscSocket.SkipOverErrors`, with a
  failing input in `PscSocket.SkipFails`.
- Trigger pulses are exactly those of the accepted events if and only if these are
  max(delay, width) + 2 clocks apart: `EventSpacing.PulsesIffSpaced`, and for two events
  `EventSpacing.TwoEventsIff`. The only exception is a stream that carries the event at
  2^32 - 1 - width clocks in a row, where the output is stuck high as it is due to be:
  `EventSpacing.FullStreamHidesBreach`. With the greatest 32-bit delay no event fires:
  `EventTrigger.GreatestDelayNeverFires`.
- Seconds bits that arrive in the two clocks after a latch are lost
  (`src/hw/hdl/event_rcv_ts.vhd:68`): `Timestamp.SecondsExactIff`. A second latch less
  than three clocks after the first loads what was there before: `Timestamp.LatchTooSoon`.
- A write held beyond the end of its own SPI transfer is received twice:
  `SpiEngine.RepeatsIffStillUp`.
- The I2C sequencer issues steps 0 to 23 and then 25 to 60; entry 24 of the table,
  the calibration of the last voltage chip, is never sent: `I2cBus.IssuedSteps` and
  `I2cChips.ChipsAreConfigured`.
- Paged and flat writes agree exactly on the tables without an entry for the page
  register: `PagedWrites.PagedIsFlatIff`.
- A FIFO count of exactly 8000 ends the polling but not the reading, so the previous
  waveform is sent again (`src/sw/src/wvfmdata.c:58-62`): `Waveform.Daemon.Turn`. A count of
  8001 to 8191 starts the reading of 8192 words; the last of them are not words of the
  FIFO: `Waveform.ShortFifo`.

## Model

| member | source | states |
|---|---|---|
| TftpRequest.MemFind | src/sw/src/tftp_server.c:241-249 | the first NUL at or after an offset, or 0xFFFF exactly if there is none |
| TftpRequest.ParseEncoded | src/sw/src/tftp_server.c:240-254 | a packet holding a NUL-free name of at most 20 bytes and a mode of at most 7 is parsed to exactly those strings, in 16-bit offset arithmetic |
| TftpRequest.ParseSound | src/sw/src/tftp_server.c:240-254 | whatever the packet, the strings copied are NUL-terminated, at most 21 and 8 bytes long, and are the packet's own |
| TftpRequest.ParseRejects | src/sw/src/tftp_server.c:240-254 | a packet is rejected if and only if no pair of fitting strings can be read from it |
| TftpRequest.EncodeIsRequest | src/sw/src/tftp_server.c:226-254 | the bytes a client builds are a request in the sense of section 5 of RFC 1350 |
| TftpFile.AfterWriteAppends | src/sw/src/tftp_handler.c:55-72 | a write at the end of what this session stored appends to it, and past that the card keeps its old bytes |
| TftpFile.WriteChainStores | src/sw/src/tftp_handler.c:58-70 | walking the buffer chain stores the first bytes of the whole payload that fit, and succeeds if and only if all fit |
| TftpFile.SdFile.Open | src/sw/src/tftp_handler.c:15-30 | only the mode octet is accepted; the file, if it is found, is opened at its start with what is on the card, and otherwise nothing changes |
| TftpFile.SdFile.Read | src/sw/src/tftp_handler.c:42-53 | -1 and no change if the read fails, else the next bytes, fewer only at the end of the file, and the position moves past them |
| TftpFile.SdFile.Write | src/sw/src/tftp_handler.c:55-72 | the loop over the chain, empty buffers and failures included, stores as one write of the payload would |
| TftpServer.Server.constructor | src/sw/src/tftp_server.c:412-417 | the state after initialisation |
| TftpServer.Server.CloseHandle | src/sw/src/tftp_server.c:97-115 | the state after closing: peer forgotten, buffer freed, one timer callback removed, file closed if open |
| TftpServer.Server.SendError | src/sw/src/tftp_server.c:117-136 | one error datagram, or nothing without a buffer |
| TftpServer.Server.SendAck | src/sw/src/tftp_server.c:138-154 | one ACK to the peer, or nothing without a buffer |
| TftpServer.Server.ResendData | src/sw/src/tftp_server.c:156-171 | the held block to the peer, buffers balanced on every path |
| TftpServer.Server.SendData | src/sw/src/tftp_server.c:173-186 | the old buffer freed, a new one allocated and filled, or none held |
| TftpServer.Server.FillBuffer | src/sw/src/tftp_server.c:188-200 | the next block read, held and sent, or an error and a close |
| TftpServer.Server.RecvRequest | src/sw/src/tftp_server.c:226-262 | requests: refused when busy or malformed or the file cannot be opened, with the timer queued before parsing |
| TftpServer.Server.StartSession | src/sw/src/tftp_server.c:268-277 | a session with the sender, answered by ACK 0 or block 1 |
| TftpServer.Server.RecvData | src/sw/src/tftp_server.c:282-320 | data: stored and acknowledged, acknowledged again, or refused; a failed write closes and then still takes the length test |
| TftpServer.Server.RecvAck | src/sw/src/tftp_server.c:322-356 | acknowledgements: the next block, the end, or an error |
| TftpServer.Server.Dispatch | src/sw/src/tftp_server.c:224-361 | the switch on the opcode |
| TftpServer.Server.Recv | src/sw/src/tftp_server.c:203-364 | a received packet, filtered by peer, and its buffer freed |
| TftpServer.Server.Tick | src/sw/src/tftp_server.c:366-389 | a timer callback: count, queue again while open, retry or close |
| TftpRuns.StepKeeps | src/sw/src/tftp_server.c:203-389 | every packet or tick, with any failures, keeps the resource and clock invariant |
| TftpRuns.EveryRunKeeps | src/sw/src/tftp_server.c:97-389 | over all runs: opens and closes alternate with reads and writes only between, buffers allocated less freed are 1 or 0 as a block is held or not, a closed server has neither buffer nor peer, retries = max(0, elapsed - 10) <= 5, a timer callback is pending while open, and no step sends two datagrams |
| TftpRuns.SilentStep | src/sw/src/tftp_server.c:212-217 | a packet from another host changes nothing in an open session; a tick advances it or, when its patience is spent, closes it |
| TftpRuns.TimeoutIsExact | src/sw/src/tftp_server.c:366-389 | without a packet from the peer the session is still open if and only if at most 10 ticks have passed when no block is held, 15 when one is: it closes at tick 11 or 16 |
| TftpTimers.StepSpare | src/sw/src/tftp_server.c:238-262 | what each step does to the number of pending callbacks beyond that of an open session |
| TftpTimers.PendingIsExact | src/sw/src/tftp_server.c:97-389 | in every run the pending callbacks are exactly one for an open session, plus the refused requests, less the callbacks that found the server closed, less the second closes that found one to remove |
| TftpTimers.SessionKeepsPending | src/sw/src/tftp_server.c:371-377 | an open session keeps its number of pending callbacks, and each that fires advances its clock |
| TftpRead.ShortBlockIsLast | src/sw/src/tftp_server.c:342-346 | a block is short exactly if it is the last, and empty when 512 divides the file |
| TftpRead.SendDataReads | src/sw/src/tftp_server.c:173-201 | after block k: block k + 1 is held, and sent if it can be; or there is no buffer and nothing is read; or the read fails and the session ends |
| TftpRead.StepMoves | src/sw/src/tftp_server.c:322-356 | without an ACK of the number it waits for, the server keeps its block, number and file position; only the timeout ends the transfer |
| TftpRead.StepAcks | src/sw/src/tftp_server.c:336-353 | the ACK of the number the server waits for brings the next block, a wait for a buffer, or, after the last block, the end; if its block was never read, the number goes one further ahead |
| TftpRead.EveryRunCounts | src/sw/src/tftp_server.c:156-201 | in every run, whatever fails and whoever sends what, the k-th block read in a session is sent and resent with exactly file bytes 512(k-1) up to min(512k, length), under the number k plus the ACKs so far of blocks never read, mod 65536 |
| TftpRead.LabelledInRunIff | src/sw/src/tftp_server.c:188-192 | a DATA packet of any run carries the bytes of its number if and only if the file has the same bytes in a block of that number, so always without such an ACK |
| TftpRead.LabelledIff | src/sw/src/tftp_server.c:348-350 | from agreement, one step sends a packet under a wrong number if and only if it is such an ACK, nothing fails, and the file has no block of that number with the same bytes |
| TftpRead.RightIff | src/sw/src/tftp_server.c:348-350 | the record's block number and the blocks read stay in agreement if and only if no block is acknowledged that was never read, or the read then fails and ends the transfer |
| TftpRead.UnreadAckShifts | src/sw/src/tftp_server.c:183-190 | after the first such ACK the next packet has the number of block k + 2 and the bytes of block k + 1 |
| TftpRead.EveryReadRun | src/sw/src/tftp_server.c:156-201 | in every run without such an ACK, whatever fails, every DATA packet sent or resent carries the bytes of its number |
| TftpResend.SilentResend | src/sw/src/tftp_server.c:379-388 | a silent event sends the held block again if and only if it is a timer callback after a wait of 10 to 14 ticks and there is a buffer for the copy |
| TftpResend.RetransmissionIsExact | src/sw/src/tftp_server.c:156-171 | without a packet from its peer a read transfer at block k sends that block to the peer again at ticks 11, 12, 13, 14 and 15, whenever there is a buffer, and at no other event |
| TftpMislabelled.UnreadAckRun | src/sw/src/tftp_server.c:183-186 | for every file, a run of a request that finds no buffer and ACK 1, ending in DATA 2 with the bytes of block 1 |
| TftpMislabelled.MislabelledRun | src/sw/src/tftp_server.c:183-186 | the failing input: of a file of one byte, DATA 2 carries that byte |
| TftpSession.HonestIsFair | src/sw/src/tftp_server.c:336-340 | a peer that acknowledges only blocks it was sent, none 65535 or more blocks old, never acknowledges the current number before its block was sent, over any wraps |
| TftpSession.EveryHonestRun | src/sw/src/tftp_server.c:156-201 | with such a peer, and any failures, every DATA packet of every run is right and no block is passed over unsent |
| TftpSession.EveryKindRun | src/sw/src/tftp_server.c:156-201 | when buffers can always be allocated and the card read, the same holds for any peer at all |
| TftpSession.SessionSendsInOrder | src/sw/src/tftp_server.c:322-356 | within a session the blocks sent so far are exactly 1 to the last one sent, and the file stays |
| TftpSession.EndByAckMeansAllSent | src/sw/src/tftp_server.c:342-353 | a transfer that a packet ends, no read failing, has sent exactly length/512 + 1 different blocks |
| TftpSession.ReadRequestOpens | src/sw/src/tftp_server.c:256-277 | a good read request to a closed server opens a session with its sender on the file found, and block 1 is sent at once if nothing fails |
| TftpHistory.AfterKeeps | src/sw/src/tftp_server.c:282-320 | every move of client, network, other hosts, timer and server keeps the lock-step invariant between the packets in flight and the blocks stored |
| TftpHistory.EveryHistoryKeeps | src/sw/src/tftp_server.c:203-389 | the invariant holds at every point of every history |
| TftpHistory.WrittenIsAlwaysAPrefix | src/sw/src/tftp_server.c:296-312 | what a session of the client has written is always the first k blocks of its file, each once and in order, over any number of block-number wraps |
| TftpHistory.CompletionMeansStored | src/sw/src/tftp_server.c:305-309 | when the client believes the transfer done, or one of its packets closes the session without a failed write, its whole file is stored |
| TftpCard.SessionWasOpened | src/sw/src/tftp_server.c:256-273 | an open session of the client was opened by one of its packets, on the file found then, and has been its session ever since |
| TftpCard.FailedWriteLeavesAPrefix | src/sw/src/tftp_server.c:300-309 | a failed write ends the transfer with a proper prefix of the client's file on the card, and the client is told an error or nothing, never ACK |
| TftpCard.FinalFileIsExactIff | src/sw/src/tftp_handler.c:22-22 | a completed transfer leaves the client's file laid over the file found when it began; the card holds exactly the client's file if and only if the old one was not longer |
| TftpCard.OneBlockHistory | src/sw/src/tftp_server.c:271-309 | every file of less than 512 bytes over every old file is the outcome of a history of request, ACK 0 and one block |
| TftpCard.LongerOldFileSurvives | src/sw/src/tftp_handler.c:22-22 | the failing input: a client that writes one byte over a file of three completes its transfer, and two old bytes are left |
| TftpWire.ServerBytes | src/sw/src/tftp_server.c:129-151 | DATA, ACK and ERROR byte by byte, as RFC 1350 has them |
| TftpWire.ClientBytes | src/sw/src/tftp_server.c:224-298 | the write request and the data blocks the server takes, byte by byte |
| TftpWire.BlockBytes | src/sw/src/tftp_server.c:183-199 | block k is bytes 512(k-1) to 512k of the file, and there are length/512 + 1 of them |
| TftpWire.EveryErrorIsRight | src/sw/src/tftp_server.c:212-360 | every packet of every host is answered, to its sender, by the error code that fits what is wrong with it, or by no error |
| TftpService.Handle | src/sw/src/tftp_server.c:203-389 | the server object takes each packet and each queued timer callback as one step |
| TftpService.Serve | src/sw/src/tftp_server.c:203-389 | a new server object, served any events, goes through a run and satisfies the run invariant |
| PscFrame.ReceiveFrame | src/sw/src/pscmsg.c:146-173 | a frame is received with its id and its body cut to the buffer, and the stream is left at the next header |
| PscFrame.ReceivePartial | src/sw/src/pscmsg.c:146-173 | a frame cut short at any byte is not delivered |
| PscFrame.CompleteIsMaximal | src/sw/src/pscmsg.c:146-173 | the number of whole frames in n bytes is the greatest that fits |
| PscFrame.DeliversWholeFrames | src/sw/src/listener.c:208-216 | for any messages and any end of the stream, exactly the messages whose frames arrived whole are delivered, in order |
| PscFrame.RoundTrip | src/sw/src/listener.c:208-216 | any list of messages is delivered as sent, each body cut to the buffer |
| PscFrame.SingleFits | src/sw/src/pscmsg.c:104-124 | a single-register message is the frame of register number and body, and is received as such |
| PscFrame.SingleRoundTripIff | src/sw/src/pscmsg.c:104-124 | that holds if and only if the 32-bit length sum does not wrap |
| PscFrame.FrameBytes | src/sw/src/pscmsg.c:80-84 | a frame byte by byte: the letters P and S, id and length with the high bytes first, the body |
| PscSocket.Socket.SendAll | src/sw/src/pscmsg.c:28-44 | over any partial sends: everything is written, or a proper prefix and failure |
| PscSocket.Socket.SendMsg | src/sw/src/pscmsg.c:89-102 | the frame is written, or a proper prefix of it and failure |
| PscSocket.Socket.SendMsgSingle | src/sw/src/pscmsg.c:104-124 | the same for a single-register message |
| PscSocket.Socket.RecvAll | src/sw/src/pscmsg.c:46-62 | over any partial receives: exactly the bytes asked for, or failure if and only if fewer will come |
| PscSocket.Socket.RecvSkip | src/sw/src/pscmsg.c:64-73 | exactly len bytes are skipped, or failure if and only if fewer will come, on a stream that stays failed |
| PscSocket.SkipOverErrors | src/sw/src/pscmsg.c:64-73 | with receive errors between arrivals, the last receive fits its buffer of 128 bytes if and only if at most 128 bytes were left at the first error or at most 128 come before the next |
| PscSocket.SkipFails | src/sw/src/pscmsg.c:64-73 | a failing input: nothing before the first error, then all 129 bytes to skip |
| PscSocket.ReceiveSome | src/sw/src/pscmsg.c:46-62 | the byte counts used there are those of the receive loop |
| PscSocket.Socket.RecvHead | src/sw/src/pscmsg.c:126-144 | the id and length of a well-formed header, failure otherwise |
| PscSocket.Socket.RecvMsg | src/sw/src/pscmsg.c:146-173 | the message that the framing gives, in the caller's buffer, whatever the fragmentation |
| PscSocket.Socket.HandleMessages | src/sw/src/listener.c:208-216 | the handler loop delivers exactly the messages of the stream up to the first error |
| PscServer.FirstFree | src/sw/src/listener.c:61-72 | the lowest slot whose bit is clear, or none exactly if all are set |
| PscServer.EveryStepKeepsBase | src/sw/src/listener.c:55-90 | in every interleaving a slot's bit is set if and only if exactly one owner holds it, a stored socket is its owner's, and the mutex holder sends one message at a time |
| PscServer.FourSlots | src/sw/src/listener.c:61-72 | there are four slots, and none is free exactly if all four are owned |
| PscKey.ChangeBit | src/sw/src/listener.c:65-84 | setting or clearing a slot's bit changes no other slot's bit |
| PscKey.Key.Alloc | src/sw/src/listener.c:55-76 | the lowest free slot is taken and zeroed, or nothing changes exactly if all are taken |
| PscKey.Key.FreeClient | src/sw/src/listener.c:78-90 | the slot is free again and no other changes |
| PscKey.Key.Broadcast | src/sw/src/listener.c:235-256 | every slot in use whose socket is alive gets the whole frame, or a proper prefix and a dead socket; no other slot is touched |
| PscKey.Key.SendOne | src/sw/src/listener.c:258-271 | the same for one slot |
| PscWire.EveryStepKeeps | src/sw/src/listener.c:235-271 | every step of every thread keeps the invariant on what each connection has carried |
| PscWire.EveryRunKeeps | src/sw/src/listener.c:55-271 | in every reachable state each connection has carried whole frames and then part of at most one, its broadcasts being consecutive ones of the common log |
| PscWire.NobodyIsStuck | src/sw/src/listener.c:172-232 | the guards of the steps exclude nothing reachable: a send can go on, every owner and the broadcaster can take the next step |
| PscWire.CutIsFinal | src/sw/src/listener.c:247-253 | after a cut-off frame no step writes to the connection |
| PscWire.NothingAfterACut | src/sw/src/listener.c:235-271 | the same over the rest of any run |
| PscWire.LogOrder | src/sw/src/listener.c:235-256 | broadcasts appear on a connection in the order in which they were made, with the same bytes |
| PscWire.CutOrder | src/sw/src/listener.c:247-253 | a broadcast that an error cut off is one of the log, and comes after all that were sent whole |
| PscWire.SameOrderEverywhere | src/sw/src/listener.c:235-256 | two broadcasts that two connections both got came in the same order on both |
| PscWire.NoBroadcastMissed | src/sw/src/listener.c:239-246 | a connection in a slot has got every broadcast from its first one to the last that has passed its slot |
| PscOnes.GoesToItsClient | src/sw/src/listener.c:258-262 | a message for one client is begun if and only if the socket in its slot is not dead, and then it is that message, to that client, from its first byte on |
| PscOnes.OnesAreBegun | src/sw/src/listener.c:258-271 | in every run the one-client messages a connection has carried, then the one under way or cut off, are exactly those begun for that very client, in order |
| PscOnes.LogIsMade | src/sw/src/listener.c:235-246 | in every run the log of broadcasts is the broadcasts made, in order |
| PscClients.ClientsReadWhatWasSent | src/sw/src/pscmsg.c:75-102 | a client that reads its connection gets exactly the messages whose sending was finished for it, in order |
| PscClients.EveryOccupancyIsTraced | src/sw/src/listener.c:197-232 | each occupancy of a slot makes the callbacks CONN, any number of recv, DIS |
| PscClients.NoSlotAfterFree | src/sw/src/listener.c:226-231 | over the rest of any run a handler that has freed its slot makes no callback and no send, frees nothing again, and its connection is in no slot |
| EventTrigger.Channel.Edge | src/hw/hdl/event_rcv_chan.vhd:41-94 | one clock edge of the four processes, each reading old values |
| EventTrigger.EveryRunFollows | src/hw/hdl/event_rcv_chan.vhd:41-94 | in every run the four registers are a closed form of the accepted events |
| EventTrigger.PulsesAreExact | src/hw/hdl/event_rcv_chan.vhd:41-94 | the pulse is high after edge n if and only if n is one of the width + 1 edges from delay + 2 after an accepted event |
| EventTrigger.TriggerIsExact | src/hw/hdl/event_rcv_chan.vhd:96-98 | the output shows the pulses in the chosen polarity, and stays low for a zero delay or width |
| EventTrigger.OneRisePerEvent | src/hw/hdl/event_rcv_chan.vhd:82-94 | the pulse rises at an edge if and only if an event was accepted delay + 2 edges before |
| EventTrigger.OneFallPerEvent | src/hw/hdl/event_rcv_chan.vhd:82-94 | it falls width + 1 edges after each rise and at no other edge |
| EventTrigger.EventsDuringDelayAreIgnored | src/hw/hdl/event_rcv_chan.vhd:68-80 | adding or removing events within a running delay changes no register at any later edge |
| EventTrigger.GreatestDelayNeverFires | src/hw/hdl/event_rcv_chan.vhd:88-88 | with delay 2^32 - 1 the pulse never rises |
| EventTrigger.CloserEventsMerge | src/hw/hdl/event_rcv_chan.vhd:82-94 | two events past each other's delay and at most width apart give the one pulse of the first |
| EventTrigger.Watch | src/hw/hdl/event_rcv_chan.vhd:41-98 | the channel object fed any stream of spaced events is high exactly in their pulses |
| EventSpacing.BreachNeedsFullStream | src/hw/hdl/event_rcv_chan.vhd:41-94 | if the first event that comes too early goes unnoticed, the event fills the stream for 2^32 - 1 - width clocks |
| EventSpacing.PulsesIffSpaced | src/hw/hdl/event_rcv_chan.vhd:41-94 | pulses are exactly those of the accepted events, at every edge, if and only if these are max(delay, width) + 2 apart, for delay and width from 1 below 2^32 - 1, unless the stream is full of the event |
| EventSpacing.TwoEventsIff | src/hw/hdl/event_rcv_chan.vhd:41-94 | for two events g clocks apart, every delay and width from 1 below 2^32 - 1: right if and only if g <= delay or g >= max(delay, width) + 2 |
| EventSpacing.FullStreamHidesBreach | src/hw/hdl/event_rcv_chan.vhd:41-94 | the exception: events at 0, 2, 4 and at every clock from 6 on, delay 1 and width 3, give the output that is due though they are not spaced |
| Timestamp.Receiver.Edge | src/hw/hdl/event_rcv_ts.vhd:51-125 | one clock edge of the six processes |
| Timestamp.EveryPrefixDecodes | src/hw/hdl/event_rcv_ts.vhd:51-113 | at each clock after a latch, position, clear flags and partial seconds are those of the bits so far, however many, whatever other events come between |
| Timestamp.LatchLoads | src/hw/hdl/event_rcv_ts.vhd:79-87 | a latch loads on each digit, most significant first, the last bit that fell on it, and a zero if that one came in the first two clocks or none came |
| Timestamp.LatchTooSoon | src/hw/hdl/event_rcv_ts.vhd:102-113 | a latch less than three clocks after another loads what the shift register still holds, but for a bit that came between |
| Timestamp.SecondsLoaded | src/hw/hdl/event_rcv_ts.vhd:64-87 | of 32 bits, the value loaded is the value sent less its leading digits that came in the first two clocks |
| Timestamp.SecondsExactIff | src/hw/hdl/event_rcv_ts.vhd:64-113 | it is exactly the value sent if and only if those digits, and those no later than a reset, are zeros, so always when there are none |
| Timestamp.SecondsRoundTrip | src/hw/hdl/event_rcv_ts.vhd:52-87 | from any state: 0x7D, two clocks without 0x70 and 0x71, the 32 digits of any value as 0x71 and 0x70, most significant first, with any other events between them, and 0x7D again load exactly that value |
| Timestamp.Coherent | src/hw/hdl/event_rcv_ts.vhd:79-99 | seconds and offset come from the same latch, and the offset is the number of clocks since it modulo 2^32 |
| Timestamp.StampIsTime | src/hw/hdl/event_rcv_ts.vhd:115-125 | the TimeStamp register shows that pair, and zeros after an edge with reset |
| Timestamp.TimeIncreasesIff | src/hw/hdl/event_rcv_ts.vhd:79-99 | the pair increases lexicographically over every two clocks of a run if and only if every latch brings more seconds and comes within 2^32 clocks |
| Timestamp.StampsIncrease | src/hw/hdl/event_rcv_ts.vhd:115-125 | then so does the TimeStamp output |
| Timestamp.Receive | src/hw/hdl/event_rcv_ts.vhd:51-125 | the receiver object fed any stream shows the seconds of its last latch and the clocks since |
| SpiEngine.Engine.Transfer | src/hw/hdl/artix_spi.vhd:66-114 | one enabled edge of the transfer state machine |
| SpiEngine.Engine.Edge | src/hw/hdl/artix_spi.vhd:49-130 | one clock edge of latch, transfer and divider |
| SpiEngine.FirstEdgeIsIdle | src/hw/hdl/artix_spi.vhd:71-82 | after the first edge the engine is idle, whatever the pins were |
| SpiEngine.StageStep | src/hw/hdl/artix_spi.vhd:66-130 | at every clock of a transfer registers, wires and receiver are at a stage of it, and the exact count of clocks left goes down by one |
| SpiEngine.WriteDelivers | src/hw/hdl/artix_spi.vhd:49-130 | a write to an idle engine, released at any time up to the end of the transfer, gives the receiver its 64 bits once, and the engine is idle after at most 1442 clocks |
| SpiEngine.RepeatsIffStillUp | src/hw/hdl/artix_spi.vhd:51-60 | the receiver gets the word a second time if and only if the write is still up at the end of its own transfer |
| SpiEngine.StageReceives | src/hw/hdl/artix_spi.vhd:90-100 | at every edge of a transfer the receive register is the last 32 levels of the input pin at rises of sclk, and the done flag is up exactly from the last bit to the next idle edge |
| SpiEngine.WordValue | src/hw/hdl/artix_spi.vhd:55-59 | read as a number the 64 bits are 0, the 31 address bits and the data |
| SpiTable.Board.SendWord | src/sw/src/control.c:58-65 | one turn of the software loop delivers one word and leaves the engine idle |
| SpiTable.Board.WriteTable | src/sw/src/control.c:42-71 | the receiver gets every word of a table of at most 16000 words once and in order, and nothing of a longer one |
| SpiTable.TableWordIsComplete | src/sw/src/control.c:58-59 | word i arrives as i << 16 or 0x60 followed by the message's four bytes, no bit lost |
| I2cMonitor.SizesAgree | src/hw/hdl/ivt_i2c_cntrl.vhd:65-103 | the size table gives the length of each entry of the data table |
| I2cMonitor.Monitor.Clock | src/hw/hdl/ivt_i2c_cntrl.vhd:178-274 | one fast edge of the sequencer, with or without reset |
| I2cMonitor.Monitor.BusClock | src/hw/hdl/ivt_i2c_cntrl.vhd:276-336 | one slow edge of the bit engine, with or without reset |
| I2cMonitor.ResetIsStart | src/hw/hdl/ivt_i2c_cntrl.vhd:181-186 | an edge of each clock with reset leads to the start of a run from any state |
| I2cBus.FastKeeps | src/hw/hdl/ivt_i2c_cntrl.vhd:178-274 | every edge of the fast clock keeps the handshake, the sequence of steps and the output registers in line with the bus |
| I2cBus.SlowKeeps | src/hw/hdl/ivt_i2c_cntrl.vhd:276-336 | so does every edge of the slow clock, whatever the chips put on the wire |
| I2cBus.EveryRunKeeps | src/hw/hdl/ivt_i2c_cntrl.vhd:178-336 | and so does every run from reset |
| I2cBus.Operate | src/hw/hdl/ivt_i2c_cntrl.vhd:178-336 | the monitor object, clocked in any order with a fast edge between slow ones, goes through a run and satisfies the run invariant |
| I2cBus.IssuedSteps | src/hw/hdl/ivt_i2c_cntrl.vhd:191-266 | request i is for the table entry of step i below 24 and of step 25 + (i - 24) mod 36 from there on; entry 24 is never asked for |
| I2cBus.OneTransactionPerStep | src/hw/hdl/ivt_i2c_cntrl.vhd:276-336 | each issued step causes exactly one bus transaction, in order, carrying exactly the bytes of its table entry; no start or stop is out of place |
| I2cBus.TransmitWordIsStable | src/hw/hdl/ivt_i2c_cntrl.vhd:187-274 | from its request to its stop condition the transmit word does not change |
| I2cBus.SdaChangesOnlyAtStartAndStop | src/hw/hdl/ivt_i2c_cntrl.vhd:298-328 | driven sda changes while scl stays high only at the start and the stop of a transaction |
| I2cBus.PassFillsRegisters | src/hw/hdl/ivt_i2c_cntrl.vhd:203-257 | when a pass is over every temperature, voltage and current register holds the two bytes seen on the wire in its own transaction of that pass |
| I2cChips.OutputsAreRegisters | src/hw/hdl/ivt_i2c_cntrl.vhd:26-91 | with chips that know only the bytes on the wire: after a pass outputs 37 to 44 hold register 0x02 of the chips 0x80 to 0x8e, outputs 53 to 60 their register 0x04, and outputs 25 to 28 register 0x00 of the chips 0x90 to 0x96, each as it was at its reading |
| I2cChips.ChipsAreConfigured | src/hw/hdl/ivt_i2c_cntrl.vhd:29-33 | from the end of the configuration on the chips 0x80 to 0x8e have 0x4127 in register 0x00, those up to 0x8c 0x0800 in register 0x05 and 0x8e never any, and the chips 0x90 to 0x96 0x80 in register 0x03 |
| NetConf.WordsAreTheText | src/sw/src/sdcard.c:81-98 | words are non-empty, hold no whitespace, and together are the text without its whitespace |
| NetConf.SkipSpace | src/sw/src/sdcard.c:81-91 | the cursor stops at the next word or the terminator, reading nothing past it |
| NetConf.FindEnd | src/sw/src/sdcard.c:88-96 | the cursor stops at the end of the word, reading nothing past the terminator |
| NetConf.Chop | src/sw/src/sdcard.c:94-98 | the word at the cursor is chopped out in place, and nothing before it changes |
| NetConf.Scan | src/sw/src/sdcard.c:81-98 | the in-place scan finds the first two words as terminated strings, and skips lines without words and comments |
| NetConf.ParseHex | src/sw/src/sdcard.c:45-61 | exactly the hexadecimal digits are accepted, with their values |
| NetConf.ParseMac | src/sw/src/sdcard.c:127-147 | the loop accepts exactly six colon-separated pairs of digits, with their values, and reads nothing past the terminator |
| NetConf.ParsePrinted | src/sw/src/net_setup.c:58-59 | parsing the printed form of a MAC address gives it back |
| NetConf.Config.ParseInet | src/sw/src/sdcard.c:35-43 | an invalid or missing address leaves the setting alone |
| NetConf.Config.Obey | src/sw/src/sdcard.c:99-151 | what each command does to the configuration |
| NetConf.Config.ReadLine | src/sw/src/sdcard.c:81-151 | a line does what its first two words say |
| NetConf.Config.ReadFile | src/sw/src/sdcard.c:66-152 | the file does what its lines do in turn |
| NetConf.MacOfFile | src/sw/src/sdcard.c:119-148 | the stored MAC is that of the last hwaddr line with exactly six groups, and unchanged if there is none |
| NetConf.InetOfFile | src/sw/src/sdcard.c:109-117 | address, mask and gateway are those of the last line of their name with a valid address, and unchanged if there is none |
| NetConf.StaticOfFile | src/sw/src/sdcard.c:99-111 | whether the address is static is decided by the last line that is addr, dhcp no, dhcp yes or a bare dhcp |
| NetConf.CommentsChangeNothing | src/sw/src/sdcard.c:81-83 | a line whose first character other than whitespace is #, or that has none, changes nothing |
| PagedWrites.Chip.Write | src/sw_old/src/i2c_devices.c:244-252 | a write reaches the page register or the selected page |
| PagedWrites.Chip.WriteTable | src/sw_old/src/i2c_devices.c:220-255 | the loop over the table with its cached page |
| PagedWrites.Selects | src/sw_old/src/i2c_devices.c:238-246 | before each data write cached page, device page and the entry's page are the same |
| PagedWrites.PagedIsFlat | src/sw_old/src/i2c_devices.c:235-255 | the device then holds what direct 16-bit writes would have put there |
| PagedWrites.PagedIsFlatIff | src/sw_old/src/i2c_devices.c:235-255 | that holds if and only if no entry addresses the page register |
| Waveform.HtonlInMemory | src/sw/src/wvfmdata.c:69-77 | htonl leaves the big-endian bytes in a little-endian memory |
| Waveform.Words | src/sw/src/wvfmdata.c:66-78 | an array filled word by word is the big-endian bytes of the words popped |
| Waveform.Samples | src/sw/src/wvfmdata.c:86-99 | so is an array filled by two samples a word |
| Waveform.BodiesAreTheFifo | src/sw/src/wvfmdata.c:140-143 | the bodies of messages 51, 52, 53 and 54 together are the big-endian bytes of the 8192 words in order |
| Waveform.Daemon.Turn | src/sw/src/wvfmdata.c:62-144 | one turn of the daemon: the messages, their order, and what they hold; exactly 8000 words send the old arrays again |
| Waveform.ShortFifo | src/sw/src/wvfmdata.c:62-99 | with less than 8192 words in the FIFO the bodies begin with its words, and the rest of them does not come from it |

## Left out

- lwIP, FatFs, FreeRTOS and the Xilinx drivers and IP: they are operations with stated behaviour (`send` and `recv` move some of the bytes or fail, a file read is short only at its end, `inet_aton` is a parameter).
- The C `int` of the TFTP timer is unbounded here; it would overflow after 2^31 ticks.
- The texts of TFTP error messages, and the filename given to the open callback: whether a file is found, and its content, is an input of each step.
- Memory behind a received packet of less than four bytes: the header reads see arbitrary bytes there, as the code does not check the length.
- TftpHistory.AfterKeeps: client and other hosts have non-zero address and port, and the first buffer of each of the client's packets holds at least its four header bytes.
- PscSocket.Socket.RecvSkip: a failed stream stays failed; what temporary errors do to its buffer is PscSocket.SkipOverErrors.
- PscServer.EveryStepKeepsBase: socket numbers are not reused; the window in which a slot is used before its socket is stored is modelled with socket 0, whose bytes belong to no connection.
- PscKey.Key.Broadcast: the sockets of different slots are different streams; the object is used by one thread at a time, and its interleavings are those of PscServer.
- EventTrigger.PulsesAreExact: delay, width and event code do not change during a run, and reset stays low; reset itself is in EventTrigger.Channel.Edge.
- EventSpacing.PulsesIffSpaced: the greatest width, 2^32 - 1, for which two pulses that touch count as two.
- SpiTable.Board.WriteTable: a register write takes at most 1432 clocks, the shortest transfer; a longer write pulse may repeat the word (SpiEngine.RepeatsIffStillUp).
- I2cBus.EveryRunKeeps: reset in the middle of a run; runs start after it (I2cMonitor.ResetIsStart). The strobe and the ratio of the two clocks are inputs.
- The configuration entry 24 of the I2C table is never sent, so nothing is claimed about it.
- NetConf.Config.ReadFile: the printed warnings, and the `eeprom` argument, which changes nothing.
- PagedWrites.Chip.WriteTable: bus errors and delays.
- Console menus, DHCP, UDP discovery, statistics and start-up code: printing and plumbing.
- Sensor scaling, the register switch and EEPROM writes: arithmetic on finite domains and single device pokes.
- The rest of `src/sw_old`, the old event receiver and the transceiver wrapper: superseded or vendor code.
