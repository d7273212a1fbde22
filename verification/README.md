# A verified model of a uTP endpoint

This project models a uTP endpoint (BEP 29) written in Go, with its LEDBAT congestion controller
(section 2.4.2 of RFC 6817), and proves what two such endpoints promise their users over a network that
loses, repeats, reorders and delays packets.

Each component is a datatype of values with functions on it (`RecvState`, `SendState`, `Ctrl`, `SentState`,
`Wheel`, `Conn`), lemmas about those functions, and a class whose methods update fields, maps and arrays in
place as the original does. The methods are proved to do what the functions say:
`ensures State() == old(State()).F(...)`.

| file | what it holds |
|---|---|
| `Words.dfy`, `Quotients.dfy`, `Collections.dfy`, `Runs.dfy` | wrapping 16- and 32-bit words, division, joins and sums, induction over runs |
| `CircularRange.dfy` | ranges of wrapping sequence numbers |
| `Packets.dfy` | headers, selective acks, extensions and packets on the wire |
| `Layouts.dfy` | the wire format byte by byte, and exactly which bytes are packets |
| `SendBuffer.dfy`, `ReceiveBuffer.dfy` | the outgoing byte queue; reassembly and selective acks |
| `Congestion.dfy` | the controller and its delay heap |
| `Ledbat.dfy` | how delays move the window, and what becomes of round trips |
| `SentPackets.dfy` | the list of sent packets: acks, loss detection, transmissions |
| `Losses.dfy` | what an ack tells the controller, and what that does to the window |
| `TimeWheel.dfy` | the timer wheel |
| `Connection.dfy` | the connection state machine as functions |
| `ConnectionObject.dfy` | the connection as an object, with its loops |
| `Invariants.dfy` | the invariant of two connected endpoints |
| `Handlers.dfy`, `Writers.dfy` | every handler keeps that invariant, whatever bytes arrive |
| `Trust.dfy`, `Arrivals.dfy` | exactly which arrivals keep the stream and the acks right |
| `Protocol.dfy` | two endpoints, the network, and all runs |
| `Drafts.dfy` | which runs leave the bytes handed over as they were |
| `Frames.dfy`, `Answers.dfy`, `Endings.dfy` | how writes are answered, and how connections end, over all runs |
| `Theorems.dfy` | what holds in every state of every run |
| `Cuts.dfy` | how much is sent at once: exactly what the windows and the buffer allow |
| `Effects.dfy` | what each handler does, seen from outside: what is sent, taken in, told and ended |
| `Outcomes.dfy` | the same of every turn of every run |
| `Extensions.dfy` | which runs carry only packets that survive the wire |
| `Limits.dfy` | where the code falls short of its promises, and exactly when |
| `Lags.dfy` | the delays that endpoints report, and what their controllers make of them |
| `Turns.dfy`, `Scenarios.dfy` | runs, from the first SYN on, that reach those failures |

## The system of two endpoints

A run starts with an endpoint that dials. At any time a SYN it sent may be accepted, which creates its peer.
From then on, at either endpoint and in any order, turns of the event loop are taken until the connection is closed.
A turn is one event, followed by a shutdown if the user has asked for one, and, if the connection is closed then, by
failing the writes that are left. The event may be that a write is submitted, that the reader or the writer is served,
that a timer fires for any SYN, DATA or FIN ever sent, that the idle timer fires, that any packet the peer has *ever*
sent arrives (so packets are lost, repeated and reordered freely), that a RESET comes from outside, or that writers
change bytes they have handed over and that are not yet cut into packets: the send buffer and the queue are views of
the writers' memory. A packet arrives as `Decode(Encode(p))`: the wire format is part of the system.

Nothing is assumed of the two configurations except a positive packet size. (The original also needs a positive timer
interval, an initial timeout of at least four nanoseconds, or it cannot make the timer wheel of a connection; the
theorems hold without it.) Turns have guards only where the original would panic or run out of numbers: at most 65533
packets per direction (exact by `Sending.WalksAreSafeIff`; see also `Sending.NextIsFreshIff`), fewer than 2^32
transmissions of one packet (one fewer than `Congestion.RetransmissionBalancedIff` needs, so that the counter never
reads zero), and a FIN only while the bytes in flight do not exceed the maximum window (exact by
`Sending.FreshPanicsIff`). `processWrites` needs no guard beyond the number of packets.

The theorems hold over all these runs, with three exceptions. Each is exact, and each concerns one endpoint: whatever
goes wrong elsewhere, what it does not touch still holds.

- What an endpoint has *assembled* is what its peer sent, up to a state, if and only if every packet that arrived at it
  on the way could not be decoded, had the extension byte that agrees with what it carries, or had a body that was not
  taken (`Protocol.RunReadsRightIff`, `Arrivals.StreamSound`).
- What it takes for *acked* has been received, up to a state, if and only if every such packet could not be decoded, had
  the right extension byte, or decoded to a bitmap that names only what was received (`Protocol.RunAcksRightIff`,
  `Arrivals.AcksSound`).
- What it *cuts into packets* is what its writers handed over, up to a state, if and only if none of them changed, on the
  way, bytes it had handed over (`Drafts.RunIsKeptIff`). Whatever writers do, the reader sees the bytes as they were
  when they were cut (`Theorems.EndToEndAsCut`).

## What turned out not to hold

- A timeout retransmission copies the old extension byte next to a freshly computed selective ack. If out-of-order
  data arrived (or stopped waiting) in between, the packet does not survive the wire (`Limits.RenewedAgreesIff`,
  `Packets.RoundTripIffExtensionAgrees`). Three promises fail with it:
  - *The reader sees what was written.* If the bitmap was not announced, it arrives as the start of the body
    (`Packets.UnannouncedBitmapJoinsBody`), and a DATA packet leaves the stream right exactly if its extension byte is
    right or its body is not taken (`Arrivals.DataStaysRightIff`). A run in which the reader is given bytes that no one
    wrote: `Scenarios.StreamCanGoWrong`.
  - *EOF means that everything was read.* The same happens to a FIN, whose bytes should be none
    (`Arrivals.FinStaysRightIff`). A run in which EOF is reported after other bytes than were written:
    `Scenarios.EofCanBeWrong`.
  - *What is acked has been received.* If a bitmap is announced and missing, a body that begins like one is taken for
    it (`Packets.BodyTakenForBitmap`); the acks stay right exactly if the byte is, or the decoded bitmap names only what
    was received (`Arrivals.AcksStayHeldIff`). A run with a phantom ack: `Scenarios.AcksCanBePhantom`; and one in which
    a connection then closes as if its FIN were acked, while the peer lacks bytes: `Scenarios.AckedFinCanBeWrong`.

  None of this happens in runs in which no timer fires for a packet whose byte has become wrong
  (`Extensions.TimelyRunsAreSound`).
- The send buffer keeps the writer's slice and copies nothing before a packet is cut, but the write is reported complete
  when the slice is queued there. A writer that then reuses its buffer changes bytes already accepted: the contents stay
  what was given if and only if the unread part of the slices does (`SendBuffers.ContentsKeptIff`), and
  `SendBuffers.ReuseSpoils` shows it on arrays. A run in which a write is reported complete and the peer reads other
  bytes: `Scenarios.WriterCanSpoil`.
- Once an endpoint has sent its FIN, the peer's FIN closes the connection at once and without an error, whatever is
  missing, unread or unacked (`Limits.BothFinsClose`), the reader is not told the end (`Limits.ReaderToldIff`), and
  what was readable is never handed over (`Limits.UnreadIsLost`). A run in which that happens:
  `Scenarios.ReadableCanBeLost`.
- A FIN has no bytes, and still cannot be sent after a timeout that leaves more in flight than its window: the
  transmission panics. `Limits.FinAfterTimeoutIff` says exactly when, and in the run `Scenarios.FinCanPanic` an endpoint
  wants to send its FIN and cannot.
- The reader is never told an error: a closed connection counts as being at its end, so the branch that would report one
  is not reached (`Theorems.ReaderIsToldNoError`).
- The lag reported to the peer is the clock minus the lag that the peer reported, not minus the time at which the peer
  sent. While that exceeds the idle timeout, as it does for any clock that counts from 1970, every STATE and DATA after
  the first packet handled reports one second (`Lags.LagSticks`). All that a controller has for samples are such reports
  (`Lags.SamplesAreReports`): whatever the network delays, those of the acceptor are one second, or zero if a FIN that
  reports no lag brought them (`Lags.LateRunsHideDelays`), and without such a FIN it adjusts its window as if there were
  no queue (`Lags.LateRunsSeeNoQueue`).
- An ack tells the controller of every packet that is still lost, not only of those it finds lost: each ack that acks
  nothing new halves the window again for each of them (`Losses.RepeatedAckHalvesAgain`).
- The round-trip estimate mixes units: milliseconds and microseconds are added up and taken for nanoseconds. As long as
  no round trip takes more than a hundred seconds, with the default minimum timeout, the ack of a packet that was sent
  once sets the timeout to that minimum, whatever the round trips are (`Ledbat.TimeoutIgnoresRoundTrips`).
- An empty write in the send buffer ends the cut: what stands behind it waits for the next time the writer is served,
  whatever room the windows leave. All that the windows allow is sent if and only if no bytes stand behind an empty
  write, or those before it fill a window (`Cuts.WindowsAreUsedIff`, `Cuts.EmptyWriteStalls`).
- A retransmission counts a packet again once its counter has wrapped to zero, after 2^32 transmissions
  (`Congestion.RetransmissionBalancedIff`).
- A transmission that the controller rejects leaves its record behind, and then the flight is no longer what is
  unacked (`Congestion.InitialBalancedIff`).
- `onAck` returns its "nothing unacked" error for valid acks, exactly when the ack's own number and bitmap leave
  nothing unacked (`Sending.NothingLeftIff`); the acks are recorded all the same (`Sending.OnAckEffect`).
- A timer put with a delay of a full turn of the wheel or more fires at the next tick (`TimeWheels.PutSetsDeadline`),
  and removing a key removes it from one slot only (`TimeWheels.RemoveIsCompleteIff`).

## Model

| member | source | states |
|---|---|---|
| Theorems.EndToEnd | conn.go:250-362 | in every state reached with no harm to the reader's stream and no writer of its peer changing what it handed over, what an endpoint has read is a prefix of what its peer accepted, whatever happens to the acks and to the other direction |
| Theorems.EndToEndAsCut | conn.go:449-465 | in every state reached with no harm to the reader's stream, whatever writers do to their memory, it is a prefix of the bytes as they were cut, followed by those that wait |
| Theorems.EofIsComplete | conn.go:554-606 | if the two conditions of EndToEnd hold until EOF is reported, the bytes read then are all bytes the peer ever accepted, then and in every later state, whatever arrives or is changed later |
| Theorems.EofSeals | conn.go:554-606 | once EOF was reported, no body that arrives is taken, in any later turn |
| Drafts.FinSteadies | conn.go:364-428 | once the FIN was sent, no writer can change anything that matters |
| Theorems.NoPhantomAcks | sent_packet.go:184-296 | in every state reached with no harm to an endpoint's acks, each packet it takes for acked has been received by its peer, whatever happens to the streams and to the other end's acks |
| Theorems.AckedFinMeansDelivered | conn.go:806-815 | with no harm to its acks and its peer's stream and its writers steady, if the last acked number is the FIN's, the peer has assembled every byte accepted |
| Protocol.RunReadsRightIff | conn.go:250-362 | in any run and for each endpoint, what it has assembled is what its peer sent in all states up to one if and only if each packet that arrived at it before was undecodable, had the right extension byte, or had a body that was not taken |
| Protocol.RunAcksRightIff | conn.go:250-362 | likewise, what it takes for acked was received if and only if each packet was undecodable, had the right byte, or named only what was received |
| Protocol.RunIsHonestIff | conn.go:250-362 | both of both endpoints, up to a state, if and only if every packet that arrived before it was sound |
| Protocol.StepReadsRightIff | conn.go:250-362 | the first for one turn, whatever else is wrong before it |
| Protocol.StepAcksRightIff | conn.go:250-362 | the second for one turn, whatever else is wrong before it |
| Protocol.StepIsHonestIff | conn.go:250-362 | from a state in which all is right a turn leads to another if and only if what arrives in it, if anything, is sound |
| Drafts.RunIsKeptIff | send_buffer.go:29-38 | in any run and for each endpoint, what it has cut and what waits is what its writers handed over in all states up to one if and only if none of them changed its memory before it |
| Drafts.StepKeptIff | send_buffer.go:29-38 | the same of one turn |
| Theorems.ReaderIsToldNoError | conn.go:351-353 | in every run no reader is told an error, and a connection that was up and closed without one has reported EOF or had sent its FIN |
| Theorems.EndsWithReason | conn.go:1036-1050 | in every run, an error is set only by the end, is a timeout or a reset, and is no reset if the endpoint had sent its FIN |
| Theorems.FinIsFinal | conn.go:364-428 | after a FIN was sent, every later state has it as the last packet, empty queues, and the same accepted bytes |
| Theorems.NothingGoesBack | conn.go:701-832 | Closed is absorbing, FINs are write-once, Connected implies buffers, acks and outputs only grow, over every run |
| Theorems.NoRejections | conn.go:888-1050 | the connections of two correct endpoints never reject each other's packets and never send a RESET |
| Theorems.WritesCompleteInOrder | conn.go:467-495 | in every run, writes complete first in first out with the lengths they were handed over with; sequenced bytes, send buffer and queue add up to all bytes as they are in the writers' memory or were when cut, and to those accepted if no writer changed them |
| Theorems.EveryWriteIsAnswered | conn.go:342-361 | in every run, the answers are one for each accepted write: those completed, in order, with their lengths, and, exactly when the loop has ended, then those failed, in order, with the error |
| Theorems.SenderIsConsistent | sent_packet.go:228-262 | in every run, the window counts exactly the unacked bytes and the lost index holds exactly the lost packets |
| Theorems.NothingFromNoOne | conn.go:207-222 | before the SYN is accepted nothing is read |
| Theorems.DeliverReadsAll | conn.go:573-585 | reading hands over every readable byte, in order, whatever the chunk size |
| Theorems.LostAreResent | conn.go:1099-1136 | every lost packet is sent again exactly once with the bytes it first carried |
| Theorems.FlightIsUnacked | congestion.go:130-161 | the controller's sum over its records equals the bytes of the unacked packets in the list |
| Protocol.RunKeeps | conn.go:250-362 | the invariant of the pair holds in every state of every run, whatever arrives |
| Protocol.RunGoesForward | conn.go:250-362 | every later state has progressed from every earlier one |
| Protocol.StepKeeps | conn.go:250-362 | each step of the system keeps the invariant and goes forward |
| Protocol.AcceptPairs | conn.go:224-247 | accepting a SYN establishes the invariant, with each side's start number agreed and nothing assembled or acked yet |
| Protocol.AloneKeeps | conn.go:608-644 | an unanswered initiator stays one whatever happens to it |
| Arrivals.ArrivalAssemblesIff | conn.go:701-832 | a packet of the peer, as the wire delivers it, leaves what is assembled right if and only if it is undecodable, has the right byte or a body not taken |
| Arrivals.ArrivalBacksIff | conn.go:701-832 | it leaves what is acked backed if and only if it is undecodable, has the right byte or names only what was received |
| Arrivals.DataStaysRightIff | conn.go:936-988 | DATA of the peer leaves the assembled stream right if and only if its extension byte is right or its decoded body is not taken |
| Arrivals.FinStaysRightIff | conn.go:990-1025 | the same of the first FIN, whose decoded body is written to the stream |
| Arrivals.AcksStayHeldIff | conn.go:834-886 | what is taken for acked stays received if and only if the extension byte is right or the decoded bitmap names only what was received |
| Arrivals.IntactIff | packet.go:230-329 | the body that arrives is the one sent if and only if the extension byte is right, and then the whole packet is, but for the high half of its timestamp |
| Trust.HandledAssemblesIff | conn.go:712-755 | for any body and bitmap under a header of the peer: what is assembled stays right if and only if the body is that of its number or not taken |
| Trust.HandledBacksIff | conn.go:712-755 | for any body and bitmap under a header of the peer: what is acked stays backed if and only if the bits name only what was received |
| Trust.WriteAgreesIff | recv_buffer.go:97-138 | writing any bytes under any sent number, in any order, keeps the stream right if and only if they are its payload or are not accepted |
| Trust.AckKeepsHeldIff | sent_packet.go:184-296 | after an ack with an honest number, everything acked has been received if and only if everything its bitmap names has |
| Trust.NumberedWasReceived | recv_buffer.go:140-142 | whatever an honest ack number settles has been received |
| Trust.VouchedIsHeld | recv_buffer.go:144-175 | whatever an honest bitmap names has been received |
| Handlers.OnPacketKeeps | conn.go:701-832 | whatever body and bitmap come under the header of a packet the peer ever sent, or a RESET, keep the invariant |
| Handlers.OnStateKeeps | conn.go:909-934 | the first STATE connects the initiator with the acceptor's start number |
| Handlers.OnDataKeeps | conn.go:936-988 | a DATA number of the peer is never past its FIN, is never rejected, and leaves only numbers that were sent, whatever bytes come with it |
| Handlers.OnFinKeeps | conn.go:990-1025 | a peer's FIN is recorded once and never contradicted, whatever bytes come with it |
| Handlers.ProcessAckKeeps | conn.go:834-886 | a peer's ack number is never out of range and never rejected, whatever bitmap comes with it |
| Handlers.AckIsTruthful | conn.go:1063-1097 | the ack number and selective ack of an outgoing packet claim only what was received, and fit the wire |
| Handlers.ResendAllKeeps | conn.go:1099-1136 | retransmitting any set of sent packets keeps the invariant |
| Handlers.ProcessReadsKeeps | conn.go:554-590 | reading keeps the invariant, and EOF is reported only with a drained buffer and the FIN consumed |
| Writers.ProcessWritesKeeps | conn.go:430-515 | sequencing, refilling and sending keep the invariant |
| Writers.RefillConserves | conn.go:467-495 | refilling moves bytes without losing, adding or reordering any |
| Writers.RefillAccounts | conn.go:474-492 | each completed write is reported with its original length, in order, even when split |
| Writers.RewriteKeeps | send_buffer.go:29-38 | whatever writers do to bytes that are not yet cut, the invariant is kept |
| Writers.CanRewriteIff | send_buffer.go:29-38 | writers can bring their memory to hold any bytes of the same lengths if and only if those in packets stay: the send buffer and the queue then have views of it |
| Writers.SendAllSends | conn.go:497-515 | the payloads are sent as consecutive unacked DATA packets and nothing else changes |
| Writers.OnWriteKeeps | conn.go:517-552 | accepting or refusing a write keeps the invariant |
| Writers.ShutdownKeeps | conn.go:364-428 | shutting down keeps the invariant; the FIN goes out only when nothing waits |
| Writers.AfterEventKeeps | conn.go:342-361 | the end of a turn of the event loop keeps the invariant |
| Writers.OnTimeoutKeeps | conn.go:608-699 | a timeout of any SYN, DATA or FIN ever sent keeps the invariant |
| Scenarios.StreamCanGoWrong | conn.go:665-697 | for any data of up to 960 bytes, a run in which it is written and the peer reads something that is no prefix of it |
| Scenarios.EofCanBeWrong | conn.go:665-697 | a run in which EOF is reported although bytes were read and none were written |
| Scenarios.AcksCanBePhantom | conn.go:665-697 | a run in which an endpoint takes its fourth packet for acked and its peer has not received it |
| Scenarios.AckedFinCanBeWrong | conn.go:806-815 | a run in which an endpoint closes without an error because its FIN passes for acked, and its peer has not received all bytes accepted |
| Scenarios.ReadableCanBeLost | conn.go:828-831 | for any data of up to 960 bytes, a run in which it is received, the connection closes without an error, and the reader is given nothing |
| Scenarios.WriterCanSpoil | conn.go:477-481 | for any two data of one length, up to 960 bytes, a run in which the first is written and reported complete and the peer reads the second |
| Scenarios.FinCanPanic | conn.go:371-396 | a run after which shutting down would send a FIN and its transmission would panic |
| Extensions.TimelyRunsAreSound | conn.go:608-699 | if no timer fires for a packet whose extension byte has become wrong, every packet that arrives in the run is sound |
| Extensions.OnTimeoutAdds | conn.go:665-697 | what a timeout sends reports the present lag, and has the right extension byte if that of the packet still fits |
| Limits.RenewedAgreesIff | conn.go:667-687 | a timeout retransmission has the right extension byte if and only if it announced a bitmap before and data is pending now, or neither |
| Limits.BothFinsClose | conn.go:828-831 | with both FINs seen the connection closes without error and changes nothing else |
| Limits.ReaderToldIff | conn.go:806-831 | a closing packet gives the reader anything if and only if no own FIN is out, nothing is unacked and the peer's FIN is reached |
| Limits.UnreadIsLost | conn.go:342-361 | with both FINs seen the loop ends without handing over what was readable |
| Limits.ArrivedDataIsRead | conn.go:936-988 | any DATA that arrives intact is recorded if and only if it fits or was there already, and the next read then completes exactly the payloads up to the first missing number |
| Limits.FinAfterTimeoutIff | conn.go:371-396 | after a timeout a FIN can be sent without a panic if and only if the flight fits the window the timeout leaves |
| Lags.LagSticks | conn.go:716-721 | in any run, an endpoint that reports one second sends no STATE or DATA with another lag, and no FIN with another but none, while each packet it handles makes the difference exceed the idle timeout |
| Lags.ActSticks | conn.go:716-721 | the first such packet brings it there, and each turn keeps it there |
| Lags.OnAckHears | sent_packet.go:320-340 | every sample that an ack adds is the delay it reports |
| Lags.SamplesAreReports | conn.go:834-886 | in every run, the samples of a controller are lags that acks which arrived have reported, and no others |
| Lags.LateRunsHideDelays | conn.go:716-721 | if the initiator's turns are all late, the acceptor's samples are all one second or zero, and one second if no FIN without a lag arrived |
| Lags.LateRunsSeeNoQueue | congestion.go:177-190 | and then the adjustment for an ack that reports one second is that of no delay at all |
| Connections.PayloadsFit | conn.go:449-465 | the payloads cut for sending fit the congestion window |
| Connections.ComposeConserves | conn.go:449-465 | payloads and remaining buffer are the old buffer, and the payloads fit the smaller window |
| Connections.ComposeCuts | conn.go:457-462 | payloads are not empty and not longer than allowed |
| Connections.SendFits | conn.go:497-515 | sending the next payload does not panic and leaves room for the rest |
| Connections.FinFits | conn.go:371-396 | sending the FIN does not panic under its guard |
| Connections.ResendNext | conn.go:1111-1135 | retransmitting one lost packet does not panic and leaves the others repeatable |
| ConnectionObjects.Connection.OnPacket | conn.go:701-832 | the method does what the function says, for every packet and state |
| ConnectionObjects.Connection.Handle | conn.go:712-755 | observing, dispatching and acknowledging in place |
| ConnectionObjects.Connection.Answer | conn.go:757-831 | retransmitting, answering and closing in place |
| ConnectionObjects.Connection.OnData | conn.go:936-988 | writes the payload, or aborts, or closes, or ignores |
| ConnectionObjects.Connection.OnFin | conn.go:990-1025 | records the FIN and its empty payload |
| ConnectionObjects.Connection.OnState | conn.go:909-934 | allocates the buffers of an initiator |
| ConnectionObjects.Connection.OnSyn | conn.go:888-907 | a repeated SYN is ignored, any other aborts |
| ConnectionObjects.Connection.ProcessAck | conn.go:834-886 | an ack out of range aborts |
| ConnectionObjects.Connection.RetransmitLost | conn.go:1099-1136 | the loop over the lost packets, in ascending order |
| ConnectionObjects.Connection.Transmit | conn.go:1138-1161 | records and emits one packet |
| ConnectionObjects.Connection.StatePacket | conn.go:1063-1097 | the STATE packet of each state |
| ConnectionObjects.Connection.Conclude | conn.go:806-831 | the three closing rules in order |
| ConnectionObjects.Connection.ProcessReads | conn.go:554-590 | the reading loop, EOF and errors |
| ConnectionObjects.Connection.ProcessWrites | conn.go:430-515 | composing, refilling and sending in place, of the bytes that the writers' memory holds at that moment |
| ConnectionObjects.ComposePayloads | conn.go:449-465 | the loop that cuts payloads refines the recursive cut, of what the slices hold now |
| ConnectionObjects.RefillFrom | conn.go:467-495 | the refill loop terminates, moves slices without copying, and refines the recursive refill |
| ConnectionObjects.Connection.OnWrite | conn.go:517-552 | queues the caller's slice or refuses the write, and processes writes as the memory has them |
| ConnectionObjects.Connection.Shutdown | conn.go:364-428 | sends the FIN or notes the wish to close |
| ConnectionObjects.Connection.AfterEvent | conn.go:342-361 | shuts down when asked to; a closed connection fails its writes and ends the loop |
| ConnectionObjects.Connection.OnTimeout | conn.go:608-699 | retries the SYN, or slows down and sends the packet again |
| Writers.OnIdleKeeps | conn.go:291-297 | the idle timer keeps the invariant |
| ConnectionObjects.Connection.Dial | conn.go:143-222 | an initiator starts connecting and has sent its SYN |
| ConnectionObjects.Connection.Accept | conn.go:224-247 | an acceptor starts connected and has answered the SYN |
| Sending.OnAckEffect | sent_packet.go:184-226 | after an ack exactly the packets acked before, those up to its number and those its bitmap names are acked; the error is exact |
| Sending.OnAckNumEffect | sent_packet.go:228-262 | the same for an ack number in range, with the lost index exact afterwards |
| Sending.NothingLeftIff | sent_packet.go:240-247 | the "nothing unacked" error is returned if and only if number and bitmap leave nothing unacked |
| Sending.LostIndexIsExact | sent_packet.go:298-340 | over every run the lost index is exactly the unacked packets with three acked ones after them, the flight is balanced, and acks only grow |
| Sending.DetectIsExact | sent_packet.go:298-318 | the backward scan finds exactly the packets lost by definition |
| Sending.TargetsAreTheBitmap | sent_packet.go:264-296 | the walk over the bitmap acks exactly the sent packets that its bits name |
| Sending.WalksAreSafeIff | sent_packet.go:278-293 | no walk leaves the list if and only if at most 65533 packets were sent |
| Sending.NextIsFreshIff | sent_packet.go:83-85 | the next number is fresh if and only if fewer than 65536 packets were sent |
| Sending.FirstUnackedIsGap | sent_packet.go:400-422 | the first unacked number is the end of the acked prefix |
| Sending.FreshTransmission | sent_packet.go:136-182 | a fresh packet that fits is appended, counted and balanced |
| Sending.Retransmission | sent_packet.go:151-181 | a retransmission changes one time and one counter |
| Sending.FreshPanicsIff | sent_packet.go:151-181 | a fresh transmission panics if and only if flight plus size exceeds the maximum window |
| Sending.SentPackets.OnAck | sent_packet.go:184-226 | the method does what the function says and keeps the books valid |
| Sending.SentPackets.OnAckNum | sent_packet.go:228-262 | acks, prior acks, detection and marking in place |
| Sending.SentPackets.OnSelectiveAck | sent_packet.go:264-296 | the bitmap loop |
| Sending.SentPackets.AckPriorUnacked | sent_packet.go:342-360 | the loop over the prior packets |
| Sending.SentPackets.DetectLostPackets | sent_packet.go:298-318 | the backward loop equals the definition |
| Sending.SentPackets.LastAckNum | sent_packet.go:362-377 | the loop finds the end of the acked prefix |
| Sending.SentPackets.FirstUnackedSeqNum | sent_packet.go:400-422 | the first unacked number, or none |
| Sending.SentPackets.HasUnackedPackets | sent_packet.go:108-111 | true if and only if some packet is unacked |
| Sending.SentPackets.LostPackets | sent_packet.go:117-134 | the lost packets in ascending order, with no index out of range |
| Sending.SentPackets.Ack | sent_packet.go:320-340 | acks one packet, a second time without effect |
| Sending.SentPackets.OnTransmit | sent_packet.go:136-182 | records a transmission; the panics are the precondition |
| ReceiveBuffers.ArrivalOrderIsIrrelevant | recv_buffer.go:97-138 | after any two call sequences that accepted the same payloads, bytes read plus readable, counter and pending set are the same |
| ReceiveBuffers.ConsumedIsLongestRun | recv_buffer.go:120-135 | the counter is the length of the longest unbroken run of accepted numbers |
| ReceiveBuffers.WriteAgrees | recv_buffer.go:97-138 | writing a payload of a source keeps the stream its in-order assembly |
| ReceiveBuffers.WriteRecords | recv_buffer.go:97-138 | a write records exactly the number it accepts and keeps the buffer within its size |
| ReceiveBuffers.AdvanceConserves | recv_buffer.go:120-135 | the counter never wraps, and a turn of the drain loop conserves bytes and received numbers |
| ReceiveBuffers.SelectiveAckIsExact | recv_buffer.go:144-175 | bit i is set if and only if ack number + 2 + i is pending; 1 to 63 words; nothing is missed below the cap |
| ReceiveBuffers.ReceiveBuffer.Write | recv_buffer.go:97-138 | copies stay in the array; does what the function says |
| ReceiveBuffers.ReceiveBuffer.Read | recv_buffer.go:82-95 | hands out the front and moves the rest down |
| ReceiveBuffers.ReceiveBuffer.Available | recv_buffer.go:54-63 | the size minus readable and pending bytes |
| ReceiveBuffers.ReceiveBuffer.SelectiveAck | recv_buffer.go:144-175 | the loop builds the specified bitmap |
| SendBuffers.WriteAppends | send_buffer.go:29-38 | a write appends the prefix that fits |
| SendBuffers.ReadTakesFront | send_buffer.go:40-61 | a read removes exactly the bytes it returns |
| SendBuffers.ContentsKeptIff | send_buffer.go:29-61 | after any change of the chunks that keeps their lengths, the contents are what they were if and only if the unread bytes are |
| SendBuffers.ReuseSpoils | send_buffer.go:29-61 | one byte is written from an array, the array is changed, and the changed byte is read |
| SendBuffers.SendBuffer.Write | send_buffer.go:29-38 | keeps a slice of the writer's array, does what the function says, and the number of bytes taken |
| SendBuffers.SendBuffer.Read | send_buffer.go:40-61 | in place, filling the caller's array with what the memory of the first chunk holds now, and no more |
| SendBuffers.SendBuffer.Available | send_buffer.go:17-23 | the summing loop equals the free space |
| Congestion.FlightIsBalancedAndBounded | congestion.go:130-247 | in every run the flight is the sum of the unacked records, and both windows stay between the minimum and minimum + increment per ack, below 2^32 |
| Congestion.GrowthLimitInRuns | congestion.go:177-190 | in every run of a configured controller, with delays as the wire carries them, the raw adjustment for a packet in flight is at most one increment |
| Congestion.GrowthLimit | congestion.go:177-190 | the same of one call, from the ranges of its samples |
| Congestion.EqualDelaysAreNone | congestion.go:177-190 | if all delays told so far are equal, the adjustment is that of no delay at all |
| Congestion.AckKeeps | congestion.go:163-210 | the first ack takes exactly the packet's bytes out of flight, later ones nothing |
| Congestion.ClampHolds | congestion.go:233-247 | whatever the adjustment, the maximum window stays at least the minimum and rises by at most one increment |
| Congestion.InitialBalancedIff | congestion.go:130-161 | a first transmission keeps the balance if and only if it fits or is empty |
| Congestion.RetransmissionBalancedIff | congestion.go:130-161 | a retransmission keeps the balance if and only if the counter was not zero, the packet is empty, or the window refuses it |
| Congestion.ConfiguredIsValid | conn.go:99-108 | a controller configured by a connection starts within its bounds, for every configuration |
| Congestion.DelayAccumulator.BaseDelay | congestion.go:317-328 | lazy popping returns the minimum over every unexpired sample ever pushed |
| Congestion.Controller.OnAck | congestion.go:163-210 | the method does what the function says |
| Congestion.Controller.OnTransmit | congestion.go:130-161 | the method does what the function says, error cases included |
| Congestion.LostKeeps | congestion.go:212-225 | a loss keeps the balance and the bounds, takes nothing out of flight, and halves the maximum window unless that falls to the minimum; an unknown number is an error and changes nothing |
| Congestion.TimeoutKeeps | congestion.go:227-230 | a timeout keeps the balance and the flight, leaves the minimum window, and never shortens the timeout nor passes its maximum |
| Packets.RoundTripIffExtensionAgrees | packet.go:230-329 | a sendable packet comes back from the wire if and only if its extension byte is right and DATA is not empty |
| Packets.PacketRoundTrip | packet.go:230-329 | decoding an encoded packet gives it back, but for the high half of its timestamp |
| Packets.MismatchChangesBody | packet.go:249-329 | a wrong extension byte makes a packet undecodable or changes the length of its body |
| Packets.UnannouncedBitmapJoinsBody | packet.go:230-329 | a bitmap that is not announced arrives as the start of the body |
| Packets.MismatchCorruptsBody | packet.go:249-329 | a family of bodies of which an announced but missing bitmap eats two bytes |
| Packets.BodyTakenForBitmap | packet.go:249-329 | a body that begins like a bitmap is taken for it when one is announced and missing |
| Packets.HeaderRoundTrip | packet.go:83-129 | decoding an encoded header gives it back, with a 32-bit timestamp |
| Packets.SackRoundTrip | packet.go:170-208 | decoding an encoded bitmap gives it back, most significant bit first |
| Packets.SackDecodeIsInjective | packet.go:187-208 | encoding a decoded bitmap gives the bytes back |
| Packets.ChainRoundTrip | packet.go:336-377 | parsing an encoded chain of extensions gives it back wherever it stands |
| Packets.ParsedIsEncoded | packet.go:336-377 | whatever parses is the encoding of what was found |
| Packets.PackKeepsBits | packet.go:137-167 | packing keeps every bit and pads with false to whole words |
| Packets.NewSelectiveAck | packet.go:137-155 | the loop builds the specified words |
| Packets.EncodeSelectiveAck | packet.go:170-184 | the loop builds the specified bytes |
| Packets.DecodeSelectiveAck | packet.go:187-208 | the loop reads the specified words, with its length errors |
| Packets.DecodeRawExtensions | packet.go:336-377 | the loop parses any input within its bounds |
| Packets.DecodePacket | packet.go:249-329 | the method decodes as specified, error cases included |
| TimeWheels.PutSetsDeadline | delay_set.go:48-62 | a put sets one entry of the deadline table; it is due at floor(delay / interval) + 1 if and only if the delay is shorter than a turn |
| TimeWheels.FiresAtDeadline | delay_set.go:88-108 | whatever else happens on the wheel, an entry fires exactly at its deadline |
| TimeWheels.PutFiresOnce | delay_set.go:48-62 | a timer for a new key fires once, at its tick and at no other |
| TimeWheels.RetainRemovesMatching | delay_set.go:64-74 | retain removes every entry of every matching key |
| TimeWheels.RemoveIsCompleteIff | delay_set.go:76-86 | remove leaves nothing of a key if and only if at most one slot held it |
| TimeWheels.TimeWheel.Put | delay_set.go:48-62 | the method does what the function says |
| TimeWheels.TimeWheel.Retain | delay_set.go:64-74 | the loop over the slots |
| TimeWheels.TimeWheel.Remove | delay_set.go:76-86 | the loop stops at the first slot with the key |
| TimeWheels.TimeWheel.Tick | delay_set.go:91-104 | fires and clears the current slot and moves on |
| CircularRanges.ContainsIsDistance | seq.go:30-38 | membership is modular distance from the start |
| CircularRanges.ItemsAreTheRange | seq.go:41-53 | the walk yields exactly the contained numbers, each once |
| CircularRanges.CircularRange.Next | seq.go:41-53 | each call yields the first remaining number and drops it |
| Outcomes.ArrivalsAreAnswered | conn.go:757-789 | in every run, a packet that arrives and leaves its receiver up makes it send every lost packet again, each exactly once, with its bytes and in ascending order, then exactly one STATE under the next number if the packet is DATA, a FIN or a first SYN, and nothing else; all of it carries the current ack number, bitmap, window, address and time |
| Outcomes.EndsInRuns | conn.go:342-361 | in every run, a RESET closes the connection, with an error exactly if our FIN is not out, the idle timer closes it with a timeout, and every queued write is told that error, in order, and nothing else is told |
| Outcomes.LossesHalveInRuns | conn.go:749-758 | in every run, a packet whose ack leaves any packet lost at least halves the window, up to an increment for each packet it acks first, or leaves the minimum |
| Outcomes.WindowIsLast | conn.go:712-713 | in every run, the peer's window is the one that the last packet that arrived announced, whatever its type |
| Outcomes.FirstWindow | conn.go:155-177 | before any packet it is 2^32 - 1, and that of the SYN for an acceptor |
| Outcomes.SendsWhatIsDue | conn.go:449-515 | in every turn of every run, the bytes sent for the first time are exactly those that are due if the writer is served, and none otherwise |
| Outcomes.SendsWithinWindow | conn.go:449-465 | in every run, no turn sends more new bytes than the last packet that arrived announced room for |
| Outcomes.SequencedIsSent | conn.go:497-515 | in every state of every run, each packet that is sequenced has been sent, under its number and with its bytes |
| Outcomes.ShutsDownInRuns | conn.go:364-428 | in every run, after a turn that serves the wish to shut down the connection is closed or closing, and if nothing waits its FIN is out |
| Effects.OnPacketAnswers | conn.go:757-789 | what Outcomes.ArrivalsAreAnswered says, of any connection and packet, the lost packets being exactly those lost once the packet's ack is taken in |
| Effects.DownAnswers | conn.go:760-789 | a connection that is not up sends nothing in answer, but for a RESET to the sender of a SYN |
| Effects.OnPacketEnds | conn.go:701-832 | a packet is refused for its type, its numbers or an empty body; a refused one closes the connection, and with which error; any other closes it without one exactly if the endpoint is done after taking it in |
| Effects.HandledRefuses | conn.go:722-755 | the same of the first half of handling: closed exactly if the packet is refused |
| Effects.OnPacketTakes | conn.go:936-1025 | a packet that is not refused has its body written under its number, if it is DATA or the first FIN, and the FIN noted exactly if there is room, its number is known, or the connection is closing |
| Effects.OnPacketObserves | conn.go:712-721 | every packet sets the peer's window and lag |
| Effects.ConnectsIff | conn.go:909-934 | an initiator is connected by a packet if and only if it is a STATE that acks its SYN, and then starts from its number |
| Effects.ResetEnds | conn.go:1027-1050 | a RESET closes any open connection; it is an error exactly if our FIN is not out |
| Effects.IdleEnds | conn.go:291-297 | the idle timer closes with a timeout |
| Effects.ProcessReadsTells | conn.go:554-590 | serving the reader hands over all readable bytes in chunks of 1 to the packet size, and then EOF exactly if the peer's FIN is reached |
| Effects.OnWriteTakesIff | conn.go:517-552 | a write is accepted exactly if the connection is not yet up, or is up and not closing, or only the peer's FIN came; otherwise it is told at once |
| Effects.ShutdownSendsFinIff | conn.go:364-428 | shutting down sends one FIN under the next number exactly if none was sent and nothing waits; otherwise it sends nothing and notes the wish |
| Effects.OnTimeoutSends | conn.go:645-699 | a timeout of DATA or a FIN sends it again with a current ack; the window falls to the minimum and the timeout doubles exactly if the last timeout that counted is longer ago than the timeout |
| Effects.SynTimeoutRetries | conn.go:608-644 | a timeout of the SYN sends it again while attempts are left, and then closes with a timeout |
| Effects.InitiatorStartsFresh | conn.go:909-934 | the STATE that acks the SYN gives an initiator empty buffers of the configured size and a configured controller with a window of two packets, whatever else it acks |
| Effects.DialSendsSyn | conn.go:207-222 | an initiator starts with one SYN |
| Effects.AcceptSendsState | conn.go:224-247 | an acceptor starts with one STATE that acks the SYN, with the numbers agreed and with such buffers |
| Cuts.ProcessWritesSends | conn.go:449-515 | serving the writer sends exactly the first bytes of the send buffer, as many as both windows allow up to an empty chunk, each packet once, and then moves writes up until none waits or the buffer is full |
| Cuts.ComposeTakes | conn.go:449-465 | the cut takes the smaller of the window and the bytes before the first empty chunk |
| Cuts.RefillIsMaximal | conn.go:467-495 | after the refill nothing waits or the buffer is full |
| Cuts.WindowsAreUsedIff | conn.go:449-465 | what the windows and the buffer allow is sent if and only if no bytes stand behind an empty chunk, or those before it fill the window |
| Cuts.EmptyWriteStalls | send_buffer.go:40-61 | behind an empty chunk nothing is sent, whatever the windows |
| Ledbat.AdjustmentLaw | congestion.go:254-278 | the adjustment is gain * increment * (target - queueing delay) * size / (target * window), rounded towards zero |
| Ledbat.AckLaw | congestion.go:177-190 | the same for an ack, the queueing delay being its delay less the smallest unexpired one told, its own included |
| Ledbat.AckMovesWindow | congestion.go:163-190 | the first ack of a packet moves the maximum window by that law, within the minimum and one increment; any other leaves the controller as it is |
| Ledbat.QueuesNeverRaise | congestion.go:177-190 | a queueing delay above the target never raises the window |
| Ledbat.QueuesNeverRaiseInRuns | congestion.go:163-247 | the same in every run of a configured controller |
| Ledbat.MoreDelayIsNoMore | congestion.go:177-190 | of two acks that differ in the delay reported, the one with more never calls for more |
| Ledbat.OnlyCleanRoundTripsCount | congestion.go:194-206 | the round trip of a packet enters the estimate exactly if the packet was sent once |
| Ledbat.TimeoutIgnoresRoundTrips | congestion.go:194-252 | in every run, with round trips of up to a fifth of the minimum timeout's number of nanoseconds in microseconds, the timeout is the minimum after each ack of a packet that was sent once |
| Losses.OnAckTells | sent_packet.go:228-262 | an ack tells the controller of each packet it acks, with the delay reported and the time since it was sent last, then of each packet that is lost after it, once, and of nothing else |
| Losses.LossesHalve | congestion.go:212-225 | k losses halve the maximum window k times, down to the minimum, and change nothing else |
| Losses.OnAckShrinks | sent_packet.go:256-260 | after an ack the maximum window is what the first acks make of it, at most an increment for each, halved once for each packet that is lost, down to the minimum; with none lost it is not halved |
| Losses.LossesReachTheWindow | sent_packet.go:256-260 | so an ack that leaves any packet lost leaves at most half of the window and the increments, or the minimum |
| Losses.LossesReachTheWindowInHistories | sent_packet.go:256-260 | the same in every history of a sender |
| Losses.RepeatedAckHalvesAgain | sent_packet.go:256-260 | an ack that acks nothing new halves the window again for each packet still lost |
| Losses.QueuesNeverRaiseOnAck | sent_packet.go:228-262 | however many packets it acks, an ack that reports a queueing delay above the target never widens the window |
| Losses.QueuesNeverRaiseInHistories | sent_packet.go:228-262 | the same in every history of a sender |
| Layouts.HeaderLayout | packet.go:83-93 | where each field of a header stands in its 20 bytes, numbers with the most significant byte first |
| Layouts.HeaderDecodesIff | packet.go:96-129 | 20 bytes decode to a header if and only if they are laid out as it |
| Layouts.SackLayout | packet.go:170-184 | bit i of a bitmap is bit 7 - i % 8 of byte i / 8 |
| Layouts.DecodesIff | packet.go:249-329 | bytes decode to a packet if and only if they are its header, a chain of extensions of which the last of kind 1 is its bitmap, and its body, not empty for DATA |

## Left out

- utp_socket.go, stream.go, event.go, cid.go, sync_map.go, delay_map.go and native: sockets, goroutines, channels, hashing and foreign calls; channels of a connection are output sequences, and one SYN is accepted once.
- Timers of a connection: a timer may fire at any time for any SYN, DATA or FIN ever sent, which includes every firing the wheel allows; the wheel is verified on its own.
- Clocks: each event reads one clock, where the original may read it several times; `ReadableAt` asks that readings of the delay heap do not go back.
- Logging, contexts, mutexes and notification channels: handlers are atomic, and reading and writing may be served at any time.
- Packets made up by a third party, other than a RESET: they are not delivered in a run.
- Liveness: nothing says that data arrives in the end.
- Round-trip estimates: that they are near the round trips is not stated, because their units are mixed; what becomes of the timeout is (`Ledbat.TimeoutIgnoresRoundTrips`).
- A division by a zero window yields one unspecified configured integer, `undefinedInt`, in place of a converted NaN.
- Storage: the two btrees are a map and a set, the delay heap is a multiset, and floats are reals.
- Theorems.EndToEnd: the original promises it of every run; it holds of those in which what arrives at the reader does its stream no harm, which is exactly when what is assembled stays right (`Protocol.RunReadsRightIff`), and no writer of the peer changes what it handed over, which is exactly when what is cut stays right (`Drafts.RunIsKeptIff`). It fails in `Scenarios.StreamCanGoWrong` and in `Scenarios.WriterCanSpoil`.
- Theorems.EofIsComplete: likewise, up to the state in which EOF is reported; it fails in `Scenarios.EofCanBeWrong`.
- Theorems.NoPhantomAcks: holds of runs in which what arrives does the endpoint's acks no harm, which is exact (`Protocol.RunAcksRightIff`); it fails in `Scenarios.AcksCanBePhantom`.
- Theorems.AckedFinMeansDelivered: asks for the conditions of both; it fails in `Scenarios.AckedFinCanBeWrong`.
- Theorems.WritesCompleteInOrder: the bytes that add up are those in the writers' memory; they are the accepted ones in runs in which no writer changes them.
- Theorems.NoRejections: speaks of connections. The socket of a correct endpoint answers packets for a connection it has removed with a RESET (utp_socket.go:318-323), so a RESET from outside may come from the peer's socket.
- Lags.LateRunsHideDelays: speaks of the acceptor, since the first packets of an acceptor report the age of the SYN; `Lags.SamplesAreReports` speaks of both.
- Congestion.GrowthLimitInRuns: asks for a nonzero target and window, since the float division is undefined otherwise, and that an ack is handled before its own sample expires.
- ConnectionObjects.Connection.ProcessAck: the removal of the timers of acked packets is not modelled, because timers may fire at any time.
- ConnectionObjects.Connection.Transmit: setting the timer of the packet is not modelled, for the same reason.
- Sending.SentPackets.OnAck: the ranges it returns for cleaning up timers are not modelled, because timers may fire at any time; the branch for exactly 65536 packets is unreachable under the bound of 65533.
- ConnectionObjects.Connection.OnTimeout: the delay of the next timer is not modelled, because timers may fire at any time.
- Ledbat.QueuesNeverRaiseInRuns: asks for a nonzero target and window, since the float division is undefined otherwise, and that acks are handled before their own samples expire.
- Losses.QueuesNeverRaiseInHistories: asks instead that what the platform makes of an undefined division is not positive, since a FIN alone in flight leaves an empty window.
- Outcomes.SendsWithinWindow: the announced window bounds what one turn sends, as the original does; bytes in flight are not subtracted from it.
