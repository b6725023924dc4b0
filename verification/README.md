# Hardcoder transports, verified in Dafny

This project models the two transports of Hardcoder's native library and proves what they promise.

* **Reliable UDP** (`libapp2sys/src/main/cpp/udp.h`). A message is cut into fragments of at most 1000 bytes,
  the fragments are numbered from 100001, at most five are outstanding, and every one is retransmitted from a
  time-ordered list until it is acknowledged or has been sent six times. The receiver accepts only the next
  number and reassembles messages.
* **Local socket** (`header.h`, `server.h`, `client.h`, `localsocket.h`, `protocol.h`). Requests and responses
  are frames on a byte stream: a packed header and a body.

Both rest on `util.h`: the CRC-32 of every UDP packet (the reflected CRC of section 8.1.1.6.2 of ITU-T V.42)
and the bounded queue `rqueue`.

## How the model is laid out

| files | what they hold |
|---|---|
| `Lfsr`, `Crc32` | XOR registers in general; the CRC, its table, and what it detects |
| `CrcDivision` | the CRC's definition as the remainder of a polynomial division, met by the register |
| `RQueue` | `rqueue` as interleaved steps of any number of threads |
| `UdpWire` | the datagram, its seal and its check |
| `UdpTypes`, `UdpNode` | the engine's state, and each operation of class `UDP` as a function of it |
| `Udp` | class `UDP` itself: methods that update the fields, each proved equal to its function in `UdpNode` |
| `UdpStream` | fragmentation and reassembly |
| `UdpSender`, `UdpSteps` | the invariant of one sender towards one peer, kept by each of its steps |
| `UdpTimers`, `UdpEngine`, `UdpLoop` | the timer list as a schedule; the invariant of a whole engine, kept by every function |
| `UdpIteration` | what one iteration of loop() gets done: windows filled, messages taken, timers served, packets answered |
| `UdpReceiver`, `UdpLink` | the receiving side, and both ends of one link |
| `UdpWorld`, `UdpTheorems` | runs of any number of engines over a bad network, and what holds in them |
| `UdpHandshake`, `UdpCompletion` | the SYN and its answer join both ends; everything submitted can always still be delivered and acknowledged |
| `UdpOnce`, `UdpRedelivery`, `UdpWitness` | when messages are delivered again: exactly, always possibly, and in one concrete run |
| `UdpProgress`, `UdpStall` | retransmission comes to an end; a peer that stops acknowledging stalls its sender |
| `UdpDatagram` | the same network, which may also corrupt datagrams |
| `Header`, `Frames`, `Protocol` | packed headers, frames on a stream, dispatch of one request |
| `Server`, `Connections`, `LocalSocketServer` | request parsing, runs over many connections, the class |
| `Client`, `LocalsocketClient` | response parsing, the class |
| `LocalSocket`, `EndToEnd` | short writes; requests and replies from end to end |
| `Seqs` | look-up facts about sequences |

An engine's log records what it does that can be observed: messages submitted, packets sent, receivers
created, messages delivered, acknowledgements accepted, timeouts. A log is projected to one peer by
`SendView` and `RecvView`. The network may deliver any packet that is in some log, at any time, any number of
times or never. `UdpDatagram` adds corruption: a datagram changed within four consecutive bytes, with its
length and CRC fields intact, is a lost one, so runs over such a network are runs of `UdpWorld`; other
corruption is not modelled. Clocks return arbitrary values. Messages and session ids are arbitrary; equal
session ids on consecutive messages are allowed.

Where the code can read or write what it must not, the model says so instead of excluding it: `Overrun` (a
write past a session buffer), `NULL_PACKET` (a null packet pointer), `PastBuffer` (a CRC over more bytes than
were received into), `OVER_READ`, `EARLY`, `HANG` (a reassembly loop that reads past its chunk, calls back with
header bytes that have not arrived, or spins). The first two are proved never to happen in any run. The others can happen, and the contracts say exactly when.

## Findings

* A SYN that reaches a receiver in state OPEN discards it (`udp.h:288`), and the next incarnation starts again
  with the first message. Delivery is a prefix per incarnation. In a run something is delivered twice exactly
  if something is delivered after a step in which a SYN discarded an OPEN receiver, after a delivery
  (`UdpOnce.ExactlyOnceIff`). This can always come about: from every state in which a receiver exists, late
  duplicates of packets already sent can make it deliver again, from the first message on, at least as much as any
  incarnation ever delivered (`UdpRedelivery.RedeliveryPossible`; `UdpWitness.Redelivery` is a concrete run).
* After EVENT_TIMEOUT for number m its slot stays occupied and m is never sent again
  (`UdpStall.GivenUpIsSilent`). Once the sender has reached number m + 4 with packets still queued, it makes no
  progress unless m is acknowledged after all (`UdpStall.StalledUntilAcked`), and a message for that peer at the
  head of `sendQueue` then blocks the messages of every other peer (`UdpStall.HeadBlocks`). Late packets can
  always end it: from every state, everything submitted can still be delivered and acknowledged
  (`UdpCompletion.CompletionPossible`).
* `loop()` returns -1 exactly if the packet it has read is answered and the `sendto` of the answer fails
  (`UdpTheorems.LoopReturnsIff`): one failing acknowledgement ends the engine, while a failing `sendto` of data
  is left to its timer. No timeout ever ends it.
* Both reassembly loops of the local socket compute the number of bytes left before they consume header bytes.
  The server reads past a chunk exactly when a chunk ends behind the 32nd byte of a frame and before its end.
  The client does so, or calls back early, in the same cases with one exception: a V2 frame with a body may
  also be cut exactly behind its 32nd byte (`Server.ServerFraming`, `Client.ClientFraming`; concrete frames and
  cuts in `Server.HeaderAlone`, `Client.HeaderAlone` and `Client.HeaderCut`).
* A negative body length that no other check refuses makes the pack builders write past the pack
  (`Header.GenReqPack`, `Header.GenRespPack`), and a server callback with a function id above 65535 queues an
  empty pack, which is never sent (`LocalSocketServer.Engine.OnCallback`).
* `getCrc32` recognises a filled table by a non-zero entry 0, and that entry is 0, so every call fills the
  table again; the result is right all the same.

## Model

| member | source | states |
|---|---|---|
| Lfsr.StepsLinear | libapp2sys/src/main/cpp/util.h:189-194 | any number of register steps is linear over XOR |
| Lfsr.BurstDetection | libapp2sys/src/main/cpp/util.h:199-204 | for any such register: equal-length inputs that differ within four consecutive bytes leave different registers |
| Crc32.TableStep | libapp2sys/src/main/cpp/util.h:201 | one table step equals eight bit-serial steps with the byte shifted in |
| Crc32.Crc32Engine.FillTable | libapp2sys/src/main/cpp/util.h:186-197 | entry i of the table is eight bit-serial steps from i |
| Crc32.Crc32Engine.GetCrc32 | libapp2sys/src/main/cpp/util.h:183-206 | for every input, the table-driven loop returns the bit-serial reflected CRC-32, the one of `CrcDivision` |
| CrcDivision.CrcIsRemainder | libapp2sys/src/main/cpp/util.h:183-206 | for every message, the CRC, low bit first, is the complement of the remainder of the message times x^32, its first 32 coefficients complemented, modulo the generator with exponents 32, 26, 23, 22, 16, 12, 11, 10, 8, 7, 5, 4, 2, 1, 0 |
| CrcDivision.CheckValue | libapp2sys/src/main/cpp/util.h:183-206 | the CRC of "123456789" is 0xCBF43926 |
| Crc32.CrcDetectsBursts | libapp2sys/src/main/cpp/util.h:199-205 | inputs that differ only within four consecutive bytes have equal CRCs exactly if they are equal |
| UdpWire.SealPacket | libapp2sys/src/main/cpp/udp.h:449-457 | the bytes handed to sendto are the packed layout, sealed with the CRC over a zero CRC field |
| UdpWire.FieldOffsets | libapp2sys/src/main/cpp/udp.h:79-88 | the datagram is the packed struct: every field at its offset, the low byte first, then the data |
| UdpWire.SealIs | libapp2sys/src/main/cpp/udp.h:452-453 | the CRC field holds the CRC of the datagram with that field cleared |
| UdpWire.CheckPacket | libapp2sys/src/main/cpp/udp.h:271-282 | a packet is handed on exactly if something was received and its CRC matches, with the fields parsed; a claimed length beyond the buffer is told apart |
| UdpWire.SealedIsAccepted | libapp2sys/src/main/cpp/udp.h:277-282 | a sealed packet passes the check and is read back unchanged |
| UdpWire.CorruptedIsDropped | libapp2sys/src/main/cpp/udp.h:277-282 | a packet changed within four consecutive bytes, datalen and datacrc intact, is accepted only if it was not changed |
| RQueue.MoveInv | libapp2sys/src/main/cpp/util.h:98-128 | every atomic step of push, pop, front and size keeps slot and item conservation and mutual exclusion |
| RQueue.QueueSafety | libapp2sys/src/main/cpp/util.h:86-128 | in every run of any threads: both semaphore equations, no pop of an empty deque, size at most the capacity, pop order is push order |
| RQueue.FrontAndSizeAreRight | libapp2sys/src/main/cpp/util.h:116-128 | in every state of every run, front is about to return the first element, NULL exactly if there is none, and size the number of elements |
| RQueue.PopReturnsFirst | libapp2sys/src/main/cpp/util.h:106-114 | pop returns the element that was first when it removed it |
| RQueue.PushStoresLast | libapp2sys/src/main/cpp/util.h:98-104 | push stores its argument behind all others |
| RQueue.StuckMeansFullOrEmpty | libapp2sys/src/main/cpp/util.h:98-114 | if no thread can move, all of them wait for room in a full queue or for an item in an empty one |
| RQueue.PopTakesWhatFrontShowed | libapp2sys/src/main/cpp/util.h:106-121 | with one consumer, the element that front returned to it is the one that its next pop removes and returns |
| UdpTypes.KeyInjective | libapp2sys/src/main/cpp/util.h:161-164 | the key of every sender and receiver look-up is injective on 16-bit ports and 32-bit addresses |
| UdpStream.RebuildStream | libapp2sys/src/main/cpp/udp.h:513-565 | fragmenting any messages and feeding the fragments in order rebuilds exactly the non-empty ones |
| UdpStream.RebuildPrefix | libapp2sys/src/main/cpp/udp.h:513-565 | after any prefix of the fragments: a prefix of the messages delivered, at most one session open, no write past a buffer |
| UdpStream.LastFragmentDelivers | libapp2sys/src/main/cpp/udp.h:532-537 | a packet delivers a message exactly when it is the last fragment of one |
| UdpStream.FragmentIs | libapp2sys/src/main/cpp/udp.h:553-568 | one fragment for every 1000 bytes begun: its offset, its bytes, the message's length and session |
| Udp.Engine.AddTimeoutEvent | libapp2sys/src/main/cpp/udp.h:206-215 | inserts the event before the first later timeout |
| Udp.Engine.DeleteTimeoutEvent | libapp2sys/src/main/cpp/udp.h:195-204 | removes the first occurrence, and says whether there was one |
| Udp.Engine.GetWindowBySeq | libapp2sys/src/main/cpp/udp.h:405-412 | the first occupied slot with this number, or none |
| Udp.Engine.CheckEmptyWindow | libapp2sys/src/main/cpp/udp.h:414-432 | the slot that EmptySlot specifies |
| Udp.Engine.SendPackage | libapp2sys/src/main/cpp/udp.h:443-493 | for SYN and DATA: sends the event's packet and arms the event found for it, with the error results of the code |
| Udp.Engine.SendAck | libapp2sys/src/main/cpp/udp.h:449-465 | sends the acknowledgement, arms nothing, and returns what sendto returned |
| Udp.Engine.GetSender | libapp2sys/src/main/cpp/udp.h:495-510 | creates a missing sender and sends its SYN |
| Udp.Engine.Split | libapp2sys/src/main/cpp/udp.h:553-568 | the fragment loop queues exactly the fragments of the message |
| Udp.Engine.Fill | libapp2sys/src/main/cpp/udp.h:573-584 | the inner loop sends while the window has room |
| Udp.Engine.CheckSendQueue | libapp2sys/src/main/cpp/udp.h:542-587 | takes a message if its peer has nothing queued, then fills every sender's window in key order |
| Udp.Engine.ProcessTimeout | libapp2sys/src/main/cpp/udp.h:217-251 | the state and result that UdpNode.ProcessTimeout specifies |
| Udp.Engine.DataRecv | libapp2sys/src/main/cpp/udp.h:513-539 | the session and the delivery that UdpNode.DataRecv specifies |
| Udp.Engine.OnSyn | libapp2sys/src/main/cpp/udp.h:287-303 | keeps an OPENING receiver, replaces any other, and acknowledges; the result is that of the sendto |
| Udp.Engine.OnData | libapp2sys/src/main/cpp/udp.h:305-324 | ignores what is out of the window, accepts the next number, acknowledges; the result is that of the sendto, or 0 |
| Udp.Engine.OnFin | libapp2sys/src/main/cpp/udp.h:326-342 | acknowledges and drops the receiver if the number fits; the result is that of the sendto, or 0 |
| Udp.Engine.OnAck | libapp2sys/src/main/cpp/udp.h:344-393 | opens the sender, or frees the acknowledged slot and ends the session if all its bytes are covered |
| Udp.Engine.LoopStep | libapp2sys/src/main/cpp/udp.h:589-646 | one iteration of loop() and its result, -1 if a timeout or the packet's answer fails |
| Udp.Engine.Loop | libapp2sys/src/main/cpp/udp.h:589-646 | for any inputs and clock, loop() goes where its iterations lead, keeps the engine's invariant, and returns early only after a failing sendto of an acknowledgement |
| Udp.Engine.Send | libapp2sys/src/main/cpp/udp.h:710-726 | queues the message under the session id of the clock reading, and returns that id, if sendQueue has room |
| UdpSender.EmptySlotMeaning | libapp2sys/src/main/cpp/udp.h:414-432 | a slot is granted exactly if one is free and the next number is within CONST_WINDOW - 1 of every outstanding one |
| UdpSteps.SubmitKeeps | libapp2sys/src/main/cpp/udp.h:710-726 | send() keeps the sender invariant |
| UdpSteps.CreateKeeps | libapp2sys/src/main/cpp/udp.h:501-509 | so does the creation of a sender |
| UdpSteps.TakeKeeps | libapp2sys/src/main/cpp/udp.h:543-568 | so does taking a message off sendQueue |
| UdpSteps.TransmitKeeps | libapp2sys/src/main/cpp/udp.h:573-584 | so does transmitting the next fragment |
| UdpSteps.ResendKeeps | libapp2sys/src/main/cpp/udp.h:249-250 | so does a retransmission |
| UdpSteps.GiveUpKeeps | libapp2sys/src/main/cpp/udp.h:245-248 | so does giving up, which happens after the last transmission and once |
| UdpSteps.SynAckKeeps | libapp2sys/src/main/cpp/udp.h:364-374 | so does the acknowledgement of the SYN |
| UdpSteps.AckKeeps | libapp2sys/src/main/cpp/udp.h:376-391 | so does the acknowledgement of an outstanding packet |
| UdpTimers.ScheduleInsert | libapp2sys/src/main/cpp/udp.h:206-215 | inserting an event where it belongs keeps the list sorted, duplicate-free and exact |
| UdpTimers.ScheduleRemove | libapp2sys/src/main/cpp/udp.h:195-204 | erasing an event leaves the exact schedule of the others |
| UdpLoop.ReinsertHead | libapp2sys/src/main/cpp/udp.h:599-607 | rewriting the head's timeout, inserting it again and erasing the old node equals erasing it first |
| UdpEngine.SendTimedIs | libapp2sys/src/main/cpp/udp.h:467-492 | when the event is found again by type and number, sendPackage returns 0 and arms it |
| UdpLoop.NextSlotMeaning | libapp2sys/src/main/cpp/udp.h:573-577 | the inner loop finds a slot for one more packet exactly if a packet is queued and the window has room for its number |
| UdpLoop.CheckSendQueueKeeps | libapp2sys/src/main/cpp/udp.h:542-587 | checkSendQueue keeps the engine's invariant, and the receiving side unchanged |
| UdpLoop.FireHeadKeeps | libapp2sys/src/main/cpp/udp.h:217-251 | serving the head of the list returns 0, so every error exit of processTimeout and of the sendPackage it calls is dead |
| UdpLoop.OnAckKeeps | libapp2sys/src/main/cpp/udp.h:344-393 | any acknowledgement from anyone keeps the engine's invariant |
| UdpLoop.LoopStepKeeps | libapp2sys/src/main/cpp/udp.h:589-646 | so does a whole iteration, with any packet and any clock; its receiving side is that of the packet it read |
| UdpLoop.AcknowledgesIff | libapp2sys/src/main/cpp/udp.h:287-342 | which packets are answered: a SYN always, DATA exactly in the receiver's window, a FIN that fits or finds no receiver |
| UdpIteration.AnsweredExactly | libapp2sys/src/main/cpp/udp.h:287-342 | DATA is answered exactly if a SYN came before and its number is the expected one or up to five below, a SYN always, a FIN exactly with the expected number or without a receiver, nothing else |
| UdpIteration.AnswerCarries | libapp2sys/src/main/cpp/udp.h:287-342 | an answer is an ACK with the number, session and length of the packet; for DATA its offset is the one behind the data |
| UdpIteration.FinCloses | libapp2sys/src/main/cpp/udp.h:326-342 | a FIN with the expected number removes its receiver and no other; any other FIN removes none |
| UdpIteration.WindowsFilled | libapp2sys/src/main/cpp/udp.h:573-584 | after checkSendQueue no sender has a packet queued for which its window has room |
| UdpIteration.FilledInKeyOrder | libapp2sys/src/main/cpp/udp.h:570-584 | the windows are filled by sending packets only, peer after peer in the order of the keys |
| UdpIteration.FirstMessageTaken | libapp2sys/src/main/cpp/udp.h:543-568 | checkSendQueue takes the first message exactly if its peer has nothing queued, and no other |
| UdpIteration.FirstMessageSplit | libapp2sys/src/main/cpp/udp.h:543-568 | its fragments are then numbered or queued behind everything taken before for that peer |
| UdpIteration.ServesWhenOverdue | libapp2sys/src/main/cpp/udp.h:589-609 | if after checkSendQueue some timeout is at most the reading that the iteration began with, the first timer, the least one, is served and the socket left alone: one retransmission, due again one timeout later, or EVENT_TIMEOUT after five retries; otherwise no timer is served and the packet read is processed |
| UdpIteration.IterationSubmits | libapp2sys/src/main/cpp/udp.h:589-646 | an iteration of loop() submits nothing |
| UdpLink.SenderMoves | libapp2sys/src/main/cpp/udp.h:344-393 | no step of a sender breaks the invariant that ties it to the receiver |
| UdpLink.ReceiverMoves | libapp2sys/src/main/cpp/udp.h:287-324 | no packet of that sender, however late or often it arrives, breaks it |
| UdpWorld.RunInv | libapp2sys/src/main/cpp/udp.h:589-646 | the invariant of all engines and links holds in every state of every run |
| UdpHandshake.HandshakeCompletes | libapp2sys/src/main/cpp/udp.h:287-374 | in every run: once b has read a SYN from a, it has logged an answer that, read by a while it waits, leaves its sender open and its SYN off the timer list |
| UdpHandshake.OtherAcksIgnored | libapp2sys/src/main/cpp/udp.h:344-393 | an acknowledgement of a number that is not outstanding changes nothing |
| UdpCompletion.CompletionPossible | libapp2sys/src/main/cpp/udp.h:589-646 | from every state of every run, some continuation by iterations of loop() delivers everything a ever submitted to anyone and acknowledges every number once; a's queues, windows and timer list are then empty |
| UdpTheorems.PrefixDelivery | libapp2sys/src/main/cpp/udp.h:287-323 | each receiver incarnation has at every moment delivered a prefix of the non-empty messages submitted, byte for byte |
| UdpTheorems.ExactlyOnce | libapp2sys/src/main/cpp/udp.h:288-298 | with a single incarnation, all deliveries together are a prefix of the messages submitted |
| UdpOnce.DeliveriesIndexed | libapp2sys/src/main/cpp/udp.h:288-298 | every delivery is a submitted message, none is made twice exactly if one incarnation made them all, and they are then a prefix of the messages |
| UdpOnce.ExactlyOnceIff | libapp2sys/src/main/cpp/udp.h:288-298 | in every run: some message is delivered twice exactly if something is delivered after a SYN was taken in status OPEN, after a delivery |
| UdpRedelivery.RedeliveryPossible | libapp2sys/src/main/cpp/udp.h:287-323 | from every state of every run in which b has a receiver for a, a continuation of b's loop() alone delivers the first messages again, at least as many as any incarnation has delivered |
| UdpWitness.Redelivery | libapp2sys/src/main/cpp/udp.h:288-300 | a run in which a message submitted once is delivered twice |
| UdpTheorems.NoOverrun | libapp2sys/src/main/cpp/udp.h:525-530 | no receiver ever writes past a session buffer, and it has at most one session open |
| UdpTheorems.WindowInvariant | libapp2sys/src/main/cpp/udp.h:405-432 | slots hold distinct numbers that span at most 4, and every number used is in a slot or acknowledged exactly once |
| UdpTheorems.NumberBoundForEver | libapp2sys/src/main/cpp/udp.h:570-584 | number q only ever carries the q-th fragment of everything submitted |
| UdpTheorems.WindowsFit | libapp2sys/src/main/cpp/udp.h:311-323 | without a reset, s >= expectedSeq - 5 for every outstanding s, and m <= expectedSeq <= m + 5 for the smallest |
| UdpTheorems.RetransmissionAnswered | libapp2sys/src/main/cpp/udp.h:311-323 | without a reset, a packet of an outstanding number up to expectedSeq is always acknowledged when it arrives |
| UdpTheorems.FinishedMeansDelivered | libapp2sys/src/main/cpp/udp.h:376-390 | the session end is raised at most once, exactly for a last fragment; the messages up to the one whose fragments end there had all been delivered by some incarnation |
| UdpTheorems.IdleMeansDelivered | libapp2sys/src/main/cpp/udp.h:376-390 | once nothing is queued or outstanding, some incarnation had delivered every message |
| UdpTheorems.TransmissionsBounded | libapp2sys/src/main/cpp/udp.h:244-250 | at most six transmissions and one timeout per number, and the timeout only after the sixth |
| UdpTheorems.TimerListExact | libapp2sys/src/main/cpp/udp.h:195-215 | the timer list is sorted, duplicate-free, and holds exactly the pending SYNs and occupied slots not given up |
| UdpTheorems.LoopReturnsIff | libapp2sys/src/main/cpp/udp.h:599-635 | in every run, an iteration returns -1 exactly if it reads a packet that it answers and the sendto of the answer fails |
| UdpTheorems.PeersApart | libapp2sys/src/main/cpp/udp.h:284-285 | a packet from one peer changes nothing that belongs to another peer |
| UdpProgress.AckFreesSlot | libapp2sys/src/main/cpp/udp.h:376-385 | the acknowledgement of an outstanding number empties its slot and takes its event off the list, and no other |
| UdpProgress.TransmitWork | libapp2sys/src/main/cpp/udp.h:579-583 | a transmission is paid for by the potential: 7 for every queued packet and every message or fragment in sendQueue, and the chances left |
| UdpProgress.TakeMessageWork | libapp2sys/src/main/cpp/udp.h:543-568 | so is the SYN of a new sender when its message is taken |
| UdpProgress.FireHeadWork | libapp2sys/src/main/cpp/udp.h:244-250 | so is a timeout |
| UdpProgress.OnAckWork | libapp2sys/src/main/cpp/udp.h:364-391 | an acknowledgement never raises the potential, and lowers it if it settles a listed event |
| UdpProgress.WorkDone | libapp2sys/src/main/cpp/udp.h:589-590 | the potential is 0 exactly if nothing is submitted or queued and the timer list is empty |
| UdpProgress.TimersDrain | libapp2sys/src/main/cpp/udp.h:589-607 | from any moment, while nothing more is submitted, the number of timeouts to come is bounded by the potential |
| UdpStall.StalledUntilAcked | libapp2sys/src/main/cpp/udp.h:414-432 | with number m outstanding, m + 4 reached and more queued, a sender keeps its numbers, its queue and the messages it has taken in every continuation in which m is not acknowledged |
| UdpStall.HeadBlocks | libapp2sys/src/main/cpp/udp.h:542-550 | meanwhile a message for that peer at the head of sendQueue keeps everything behind it, for any peer, in the queue |
| UdpStall.GivenUpIsSilent | libapp2sys/src/main/cpp/udp.h:244-248 | a number given up has been sent six times and is never sent again |
| UdpDatagram.DatagramRunIs | libapp2sys/src/main/cpp/udp.h:277-282 | a network that also corrupts datagrams within four bytes, length and CRC fields intact, adds no runs |
| UdpDatagram.PrefixDespiteCorruption | libapp2sys/src/main/cpp/udp.h:277-323 | so prefix delivery holds over it |
| UdpDatagram.TypeCodes | libapp2sys/src/main/cpp/udp.h:66-69 | the four type codes; every other one is ignored |
| Header.ReqRoundTrip | libapp2sys/src/main/cpp/header.h:23-32 | a packed request header is read back unchanged |
| Header.RespRoundTrip | libapp2sys/src/main/cpp/header.h:118-127 | a packed response header is read back unchanged |
| Header.ReqOffsets | libapp2sys/src/main/cpp/header.h:23-32 | the packed request header: every field at its offset |
| Header.RespOffsets | libapp2sys/src/main/cpp/header.h:118-127 | the packed response header: every field at its offset |
| Header.Mark | libapp2sys/src/main/cpp/header.h:19 | fields are stored low octet first: a pack starts with "RCDH" |
| Header.ExtensionOffsets | libapp2sys/src/main/cpp/header.h:35-42 | a V2 pack carries its header length and body format at offsets 32 and 36 |
| Header.GenReqPack | libapp2sys/src/main/cpp/header.h:45-115 | for any int length: the pack is header, V2 extension if any, and body; errors are -1 and -2 as in the code; undefined exactly for a negative length that passes the checks |
| Header.GenRespPack | libapp2sys/src/main/cpp/header.h:140-202 | the same for responses |
| Protocol.ProcessReceive | libapp2sys/src/main/cpp/protocol.h:332-537 | every branch makes one response with the request's funcid and requestid |
| Protocol.ResultCases | libapp2sys/src/main/cpp/protocol.h:341-536 | -10007 for a version below 4, the handler's result for the 19 functions, -10002 for any other |
| Protocol.ProcessSend | libapp2sys/src/main/cpp/protocol.h:324-329 | a response with request id 0 and RET_OK, or -2 or -1 and no pack for a refused function id or version |
| Server.ServerFraming | libapp2sys/src/main/cpp/server.h:53-108 | for any request frames and chunks: the loop stays within its chunks exactly if all cuts are clean, and then dispatches every complete frame once and in order |
| Server.PackIsDispatched | libapp2sys/src/main/cpp/server.h:53-108 | a V1 request pack received whole is dispatched with the header and body it was built from |
| Server.HeaderAlone | libapp2sys/src/main/cpp/server.h:56-96 | a concrete request whose header and body arrive in two chunks makes it read past the first |
| Connections.EveryConnection | libapp2sys/src/main/cpp/server.h:41-108 | the same for any connections, interleaved in any way, each with its own frames; all complete frames are dispatched, and those with an id that is not negative have their replies queued in that order |
| Connections.UndefinedIff | libapp2sys/src/main/cpp/server.h:56-96 | the server reads past a chunk exactly if one of its connections alone would |
| LocalSocketServer.Engine.RecvEvent | libapp2sys/src/main/cpp/server.h:43-112 | recvEvent dispatches the specified frames, queues their responses and returns the specified result; leaves the caches of other connections alone |
| LocalSocketServer.Engine.OnCallback | libapp2sys/src/main/cpp/server.h:143-158 | a server-initiated response joins the queue, an empty pack if its function id or the version is refused |
| LocalSocketServer.Engine.PopResponse | libapp2sys/src/main/cpp/server.h:120-122 | responses leave respQueue in order |
| LocalSocketServer.Engine.SendOldest | libapp2sys/src/main/cpp/server.h:119-126 | a turn of localServerRespThread hands the oldest response to the socket, which has thus been handed exactly what was popped |
| Client.ClientFraming | libapp2sys/src/main/cpp/client.h:165-259 | for any V1 and V2 response frames and chunks: parsed exactly if all cuts are clean, with the callbacks of the complete frames in order |
| Client.AllArrived | libapp2sys/src/main/cpp/client.h:221-226 | after all frames the parser state is back to empty |
| Client.PackIsHeard | libapp2sys/src/main/cpp/client.h:165-259 | a response pack of either version received whole is handed on as built: function, id, body format, timestamp, signed result and body |
| Client.HeaderAlone | libapp2sys/src/main/cpp/client.h:165-199 | a concrete V1 response cut behind its header makes it read past the chunk |
| Client.HeaderCut | libapp2sys/src/main/cpp/client.h:165-226 | a concrete V2 response without a body, cut inside its header, makes it call back too early or read past the chunk |
| LocalsocketClient.Receiver.RecvEvent | libapp2sys/src/main/cpp/client.h:158-263 | the buffers hold the specified state and the callbacks are the specified ones, also those before a frame that cannot be taken |
| LocalSocket.Engine.SendData | libapp2sys/src/main/cpp/localsocket.h:365-378 | queues a pack, or refuses an empty one |
| LocalSocket.Engine.Wrote | libapp2sys/src/main/cpp/localsocket.h:151-160 | after a short write: accepted and unsent bytes add up to what was queued, and the pack is retired exactly with its last byte |
| LocalSocket.Engine.SendFailed | libapp2sys/src/main/cpp/localsocket.h:136-149 | after an error a server drops the pack and a client stops |
| LocalSocket.Engine.WriteSome | libapp2sys/src/main/cpp/localsocket.h:131-165 | the writing part of an iteration: the first pack's next octets are accepted, or its descriptor fails; only a client's failure ends the loop |
| LocalSocket.Engine.AcceptedIsPrefix | libapp2sys/src/main/cpp/localsocket.h:131-165 | without an error, the bytes accepted for a descriptor are a prefix of the packs queued for it |
| EndToEnd.RepliesInOrder | libapp2sys/src/main/cpp/protocol.h:332-537 | at every moment, with short writes on both sides: the client's callbacks are the queue's first entries for it in order, and the replies among them answer the first of the requests that have arrived, in request order |
| EndToEnd.EveryRequestAnswered | libapp2sys/src/main/cpp/protocol.h:332-537 | once everything has arrived, every request with an id that is not negative has its one reply |

## Left out

- System calls: `select`, `sendto`, `recvfrom`, `accept`, pipes and clocks are inputs or arbitrary values; a failing `sendto` counts as a lost packet.
- UDP records: `Sender`, `Receiver`, `TimeoutEvent` and sessions are values in maps that the methods reassign, and a `TimeoutEvent` pointer is a `TimerRef`; memory freeing is not modelled. A SYN packet freed on acknowledgement is modelled as gone.
- Sender-side FIN (the state FIN_SENT is never entered), sender restart and sequence wrap-around: submissions are assumed to keep all numbers below `INT_MAX`.
- Udp.Engine.SendPackage: SYN and DATA only; the event of a FIN packet (`finTimeoutEvent`) is left out, as no FIN is ever sent, and an acknowledgement is `SendAck`.
- Udp.Engine.Send: reports whether there was room; the code waits for it, which is what `RQueue` models.
- Udp.Engine.LoopStep: handles one packet; an iteration in which `select` reports nothing is the input `Nothing`.
- UdpWorld.Run: lets an engine whose loop() has returned go on, which only adds runs.
- UdpDatagram.DatagramRun: no corruption of the length or CRC field, and no changes further apart than four bytes, which the CRC may miss; that every packet has a datagram (field widths) is not stated.
- V2 requests: the server of this repository only knows the 32-byte request header, so `Server` and `Connections` model streams of V1 requests.
- Buffers that C++ leaves uninitialised: reassembly buffers start as zeros, and no theorem reads a byte that was not written.
- LocalsocketClient.Receiver.RecvEvent: after OVER_READ, EARLY or HANG nothing is said of the buffers, as the code's behaviour is then undefined or endless; the callbacks made before are stated.
- LocalSocketServer.Engine.RecvEvent: after OVER_READ nothing is said of the cache of that connection; what was dispatched and queued before is stated.
- LocalSocketServer.Engine.OnCallback: after a negative length that passes the checks nothing is said of the object.
- Protocol.ProcessReceive: the body's protobuf parsing and the HardCoder call are one arbitrary function of header and body.
- LocalSocket: blocking of `push` on a full queue (see `RQueue`), descriptors reused after an error, and accepting connections.
- JNI, Java callbacks, logging, `procutil.h`, `LocalPortCheck`, registration lists, engine lifetimes, `getcrc4`, `getVersion`: no logic that the properties above depend on.
