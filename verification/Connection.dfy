/** The connection state machine as functions on values (conn.go). */
module Connections {
  import opened Words
  import opened Collections
  import opened CircularRanges
  import opened Packets
  import opened SendBuffers
  import opened ReceiveBuffers
  import opened Congestion
  import opened Sending

  datatype Role = Initiator | Acceptor

  datatype Endpoint = Endpoint(role: Role, synNum: u16, synAck: u16, attempts: nat)

  datatype StateType = Connecting | Connected | Closed

  datatype ConnError =
    | EmptyPayload
    | BadAckNum
    | BadFin
    | BadSeqNum
    | BadSyn
    | PeerReset
    | SynFromAcceptor
    | TimeOut

  datatype Closing = Closing(localFin: Option<u16>, remoteFin: Option<u16>)

  /** A write in progress; `id` stands for its result channel. */
  datatype QueuedWrite = QueuedWrite(id: nat, data: seq<u8>, written: nat)

  datatype WriteResult = Written(id: nat, length: nat) | Refused(id: nat) | Failed(id: nat, error: Option<ConnError>)

  datatype ReadEvent = Chunk(data: seq<u8>) | Eof | ReadError(error: Option<ConnError>)

  datatype Config = Config(
    maxPacketSize: u16,
    maxConnAttempts: nat,
    maxIdleTimeout: int,
    initialTimeout: int,
    minTimeout: int,
    maxTimeout: int,
    targetDelay: u32,
    windowSize: u32,
    bufferSize: nat,
    undefinedInt: int)

  /** What a connection has once it is established. */
  datatype Buffers = Buffers(recv: RecvState, send: SendState, sent: SentState) {
    ghost predicate Valid() {
      recv.Valid() && send.Valid() && sent.Valid()
    }
  }

  function FreshBuffers(cfg: Config, recvInit: u16, sendInit: u16): Buffers {
    Buffers(RecvState(cfg.bufferSize, recvInit, 0, [], map[]), SendState(cfg.bufferSize, [], 0),
            SentState(sendInit, [], {}, Configured(cfg.maxPacketSize, cfg.targetDelay, cfg.initialTimeout,
                                                   cfg.minTimeout, cfg.maxTimeout, cfg.undefinedInt)))
  }

  datatype Composed = Composed(payloads: seq<seq<u8>>, send: SendState)

  /** Cuts the send buffer into payloads, each at most `maxData` long and all together at most `window`. */
  function Compose(send: SendState, window: nat, maxData: nat): Composed
    requires send.Valid()
    decreases window
  {
    if window == 0 then Composed([], send)
    else
      var cap := Min(window, maxData);
      ReadTakesFront(send, cap);
      var front := send.Front(cap);
      if front == [] then Composed([], send.Read(cap))
      else
        var rest := Compose(send.Read(cap), window - |front|, maxData);
        Composed([front] + rest.payloads, rest.send)
  }

  datatype Refilled = Refilled(send: SendState, writes: seq<QueuedWrite>, results: seq<WriteResult>)

  /** Moves queued writes into the send buffer while it has room; a write that fits only in part stays with the rest. */
  function Refill(send: SendState, writes: seq<QueuedWrite>, results: seq<WriteResult>): Refilled
    requires send.Valid()
    decreases |writes|, send.Available()
  {
    if writes == [] || send.Available() <= 0 then Refilled(send, writes, results)
    else
      var w := writes[0];
      var room := send.Available();
      WriteAppends(send, w.data);
      if |w.data| <= room then
        Refill(send.Write(w.data), writes[1..], results + [Written(w.id, |w.data| + w.written)])
      else
        WriteAppends(send, w.data[..room]);
        RoomIsUsedUp(send, w.data[..room]);
        Refill(send.Write(w.data[..room]), [w.(data := w.data[room..], written := w.written + room)] + writes[1..],
          results)
  }

  lemma RoomIsUsedUp(send: SendState, data: seq<u8>)
    requires send.Valid() && |data| == send.Available()
    ensures send.Write(data).Available() == 0
  {
    JoinSnoc(send.pending, data);
  }

  /** A write that fits is moved and reported. */
  lemma RefillWhole(send: SendState, writes: seq<QueuedWrite>, results: seq<WriteResult>)
    requires send.Valid() && writes != [] && 0 < send.Available() && |writes[0].data| <= send.Available()
    ensures var w := writes[0]; send.Write(w.data).Valid()
    ensures var w := writes[0];
            Refill(send, writes, results) ==
              Refill(send.Write(w.data), writes[1..], results + [Written(w.id, |w.data| + w.written)])
  {
    WriteAppends(send, writes[0].data);
  }

  /** A write that does not fit fills the buffer. */
  lemma RefillPart(send: SendState, writes: seq<QueuedWrite>, results: seq<WriteResult>)
    requires send.Valid() && writes != [] && 0 < send.Available() < |writes[0].data|
    ensures var w, room := writes[0], send.Available(); var full := send.Write(w.data[..room]);
            && full.Valid() && full.Available() == 0
            && var left := [w.(data := w.data[room..], written := w.written + room)] + writes[1..];
               Refill(send, writes, results) == Refill(full, left, results) == Refilled(full, left, results)
  {
    var w, room := writes[0], send.Available();
    WriteAppends(send, w.data[..room]);
    RoomIsUsedUp(send, w.data[..room]);
  }

  lemma {:induction false} RefillIsValid(send: SendState, writes: seq<QueuedWrite>, results: seq<WriteResult>)
    requires send.Valid()
    ensures Refill(send, writes, results).send.Valid()
    decreases |writes|
  {
    if writes != [] && send.Available() > 0 {
      var w := writes[0];
      if |w.data| <= send.Available() {
        RefillWhole(send, writes, results);
        RefillIsValid(send.Write(w.data), writes[1..], results + [Written(w.id, |w.data| + w.written)]);
      } else {
        RefillPart(send, writes, results);
      }
    }
  }

  datatype Conn = Conn(
    cfg: Config,
    cidSend: u16,
    cidRecv: u16,
    endpoint: Endpoint,
    stateType: StateType,
    err: Option<ConnError>,
    bufs: Option<Buffers>,
    closing: Option<Closing>,
    peerTsDiff: int,
    peerRecvWindow: u32,
    pendingWrites: seq<QueuedWrite>,
    latestTimeout: Option<int>,
    synState: Option<Packet>,
    out: seq<Packet>,
    readOut: seq<ReadEvent>,
    results: seq<WriteResult>,
    accepted: seq<QueuedWrite>,
    drafts: seq<QueuedWrite>)
  {
    ghost predicate Valid() {
      && (stateType == Connected ==> bufs.Some?)
      && (bufs.Some? ==> bufs.value.Valid())
    }

    function LocalFin(): Option<u16> {
      if closing.Some? then closing.value.localFin else None
    }

    function RemoteFin(): Option<u16> {
      if closing.Some? then closing.value.remoteFin else None
    }

    // ------------------------------------------------------------ packets to send

    function TsDiff(): u32 {
      Wrap32(peerTsDiff)
    }

    function SynPacket(clock: Clock): Packet {
      Build(Syn, cidRecv, Wrap32(clock.micros), cfg.windowSize, endpoint.synNum, 0, 0, None, [])
    }

    /** A packet with the current ack number and selective ack. */
    ghost function Stamped(ptype: PacketType, seqNum: u16, tsDiff: u32, body: seq<u8>, clock: Clock): Packet
      requires bufs.Some?
    {
      Build(ptype, cidSend, Wrap32(clock.micros), Wrap32(bufs.value.recv.Available()), seqNum, tsDiff,
            bufs.value.recv.AckNum(), bufs.value.recv.SelectiveAck(), body)
    }

    ghost function StatePacket(clock: Clock): Option<Packet>
      requires Valid()
    {
      match stateType
      case Connecting =>
        if endpoint.role == Initiator then None
        else Some(Build(State, cidSend, Wrap32(clock.micros), cfg.windowSize, endpoint.synAck, TsDiff(),
          endpoint.synNum, None, []))
      case Connected => Some(Stamped(State, bufs.value.sent.NextSeqNum(), TsDiff(), [], clock))
      case Closed => None
    }

    function Emit(p: Packet): Conn {
      this.(out := out + [p])
    }

    predicate CanTransmit(p: Packet) {
      bufs.Some? && |p.body| < 0x1_0000_0000 && bufs.value.sent.CanTransmit(p.header.seqNum, |p.body|)
    }

    function Transmit(p: Packet, clock: Clock): Conn
      requires CanTransmit(p)
    {
      var sent := bufs.value.sent.OnTransmit(p.header.seqNum, p.header.ptype, p.body, clock.now);
      this.(bufs := Some(bufs.value.(sent := sent)), out := out + [p])
    }

    // ------------------------------------------------------------ incoming packets

    function Abort(error: ConnError): Conn {
      if stateType == Connected && LocalFin().Some? then this.(stateType := Closed)
      else this.(stateType := Closed, err := Some(error))
    }

    function OnSyn(seqNum: u16): Conn {
      if stateType == Closed || (endpoint.role == Acceptor && seqNum == endpoint.synNum) then this
      else Abort(if endpoint.role == Acceptor then BadSyn else SynFromAcceptor)
    }

    function OnState(seqNum: u16, ackNum: u16): Conn {
      if stateType == Connecting && endpoint.role == Initiator && ackNum == endpoint.synNum then
        this.(stateType := Connected, bufs := Some(FreshBuffers(cfg, Sub(seqNum, 1), endpoint.synNum)))
      else this
    }

    ghost function Receive(seqNum: u16, body: seq<u8>): Conn
      requires bufs.Some? && bufs.value.recv.Valid()
    {
      this.(bufs := Some(bufs.value.(recv := bufs.value.recv.Write(body, seqNum))))
    }

    ghost function OnData(seqNum: u16, body: seq<u8>): Conn
      requires Valid()
    {
      if body == [] then Abort(EmptyPayload)
      else if stateType != Connected then this
      else if RemoteFin().Some? && !Contains(bufs.value.recv.init, RemoteFin().value, seqNum) then
        this.(stateType := Closed, err := Some(BadSeqNum))
      else if |body| <= bufs.value.recv.Available() then Receive(seqNum, body)
      else this
    }

    ghost function OnFin(seqNum: u16, body: seq<u8>): Conn
      requires Valid()
    {
      if stateType != Connected then this
      else if RemoteFin().Some? then
        if seqNum != RemoteFin().value then Abort(BadFin) else this
      else if closing.Some? then
        this.(closing := Some(closing.value.(remoteFin := Some(seqNum)))).Receive(seqNum, body)
      else if !bufs.value.recv.WasWritten(seqNum) && |body| > bufs.value.recv.Available() then this
      else Receive(seqNum, body).(closing := Some(Closing(None, Some(seqNum))))
    }

    function OnReset(): Conn {
      if stateType == Closed then this else Abort(PeerReset)
    }

    ghost function ProcessAck(ackNum: u16, sack: Option<SelectiveAck>, delay: int, clock: Clock): Conn
      requires Valid()
    {
      if stateType != Connected then this
      else
        var (sent1, error) := bufs.value.sent.OnAck(ackNum, sack, delay, clock);
        var c := this.(bufs := Some(bufs.value.(sent := sent1)));
        if error == Some(InvalidAckNum) then c.Abort(BadAckNum) else c
    }

    /** Records the peer's window and clock, as every packet does first. */
    function Observe(p: Packet, clock: Clock): Conn {
      var diff := clock.micros - p.header.tsDiff;
      this.(peerRecvWindow := p.header.wnd, peerTsDiff := if diff * 1000 > cfg.maxIdleTimeout then 1_000_000 else diff)
    }

    ghost function Dispatch(p: Packet): Conn
      requires Valid()
    {
      match p.header.ptype
      case Syn => OnSyn(p.header.seqNum)
      case State => OnState(p.header.seqNum, p.header.ackNum)
      case Data => OnData(p.header.seqNum, p.body)
      case Fin => OnFin(p.header.seqNum, p.body)
      case Reset => OnReset()
    }

    ghost function Acknowledge(p: Packet, clock: Clock): Conn
      requires Valid()
    {
      match p.header.ptype
      case State => ProcessAck(p.header.ackNum, p.eack, p.header.tsDiff * 1000, clock)
      case Data => ProcessAck(p.header.ackNum, p.eack, p.header.tsDiff * 1000, clock)
      case Fin => ProcessAck(p.header.ackNum, p.eack, p.header.tsDiff * 1000, clock)
      case Syn => this
      case Reset => this
    }

    /** Every packet of the set can be sent once more before its counter wraps. */
    predicate Resendable(lost: set<u16>) {
      bufs.Some? && forall q :: q in lost ==>
        q in bufs.value.sent.ctrl.tx && bufs.value.sent.ctrl.tx[q].num < 0xFFFF_FFFF
    }

    /** The packet that repeats the one numbered q. */
    ghost function Repeat(q: u16, clock: Clock): Packet
      requires bufs.Some? && Index(bufs.value.sent.init, q) < |bufs.value.sent.packets|
    {
      var p := bufs.value.sent.packets[Index(bufs.value.sent.init, q)];
      Stamped(p.ptype, q, TsDiff(), p.data, clock)
    }

    /** Sends the given packets again, in ascending order of their numbers. */
    ghost function ResendAll(lost: set<u16>, clock: Clock): (c: Conn)
      requires Valid() && Resendable(lost)
      ensures c.Valid()
      decreases |lost|
    {
      if lost == {} then this
      else
        var q := Smallest(lost);
        ResendNext(this, lost, q, clock);
        Transmit(Repeat(q, clock), clock).ResendAll(lost - {q}, clock)
    }

    /** The records of the lost packets leave room for another transmission. */
    predicate CanRetransmit() {
      stateType == Connected ==> bufs.Some? && Resendable(bufs.value.sent.lost)
    }

    ghost function RetransmitLost(clock: Clock): (c: Conn)
      requires Valid() && CanRetransmit()
      ensures c.Valid()
    {
      if stateType != Connected then this else ResendAll(bufs.value.sent.lost, clock)
    }

    ghost function Respond(p: Packet, clock: Clock): (c: Conn)
      requires Valid()
      ensures c.Valid()
    {
      match p.header.ptype
      case Syn =>
        if synState.Some? then this
        else
          var state := StatePacket(clock);
          if state.Some? then this.(synState := state).Emit(state.value)
          else Emit(Build(Reset, p.header.connId, Wrap32(clock.micros), 100_000, clock.random, 0, 0, None, []))
      case Data => var state := StatePacket(clock); if state.Some? then Emit(state.value) else this
      case Fin => var state := StatePacket(clock); if state.Some? then Emit(state.value) else this
      case State => this
      case Reset => this
    }

    /** Our FIN is acked. */
    function CloseIfAcked(): Conn
      requires stateType == Connected ==> bufs.Some?
    {
      if stateType == Connected && LocalFin().Some? && bufs.value.sent.LastAckNum() == LocalFin() then
        this.(stateType := Closed, err := None)
      else this
    }

    /** The peer's FIN is reached and nothing of ours is unacked. */
    function CloseIfDrained(): Conn
      requires stateType == Connected ==> bufs.Some?
    {
      if stateType == Connected && RemoteFin().Some? && bufs.value.sent.FirstUnacked().None?
         && bufs.value.recv.AckNum() == RemoteFin().value
      then ProcessReads().(stateType := Closed, err := None)
      else this
    }

    /** Both FINs have been seen, whatever has been acked. */
    function CloseIfBothFins(): Conn {
      if stateType == Connected && RemoteFin().Some? && LocalFin().Some? then this.(stateType := Closed, err := None)
      else this
    }

    ghost function Conclude(): (c: Conn)
      requires Valid()
      ensures c.Valid()
    {
      ProcessReadsIsValid(CloseIfAcked());
      CloseIfAcked().CloseIfDrained().CloseIfBothFins()
    }

    /** The second half of a packet's handling: retransmissions, the answer, and closing. */
    ghost function Answer(p: Packet, clock: Clock): (c: Conn)
      requires Valid() && CanRetransmit()
      ensures c.Valid()
    {
      RetransmitLost(clock).Respond(p, clock).Conclude()
    }

    ghost function OnPacket(p: Packet, clock: Clock): (c: Conn)
      requires Valid() && Handled(p, clock).CanRetransmit()
      ensures c.Valid()
    {
      Handled(p, clock).Answer(p, clock)
    }

    /** The first half of a packet's handling: its own effect and its acks. */
    ghost function Handled(p: Packet, clock: Clock): (c: Conn)
      requires Valid()
      ensures c.Valid()
    {
      DispatchIsValid(Observe(p, clock), p);
      AcknowledgeIsValid(Observe(p, clock).Dispatch(p), p, clock);
      Observe(p, clock).Dispatch(p).Acknowledge(p, clock)
    }

    // ------------------------------------------------------------ reading

    /** Hands the readable bytes to the reader in chunks. */
    function Deliver(): Conn
      requires bufs.Some?
      decreases |bufs.value.recv.buf|
    {
      if Min(cfg.maxPacketSize, |bufs.value.recv.buf|) == 0 then this else HandOver().Deliver()
    }

    /** One chunk of the readable bytes goes to the reader. */
    function HandOver(): Conn
      requires bufs.Some?
    {
      var recv := bufs.value.recv;
      this.(bufs := Some(bufs.value.(recv := recv.Read(cfg.maxPacketSize))),
            readOut := readOut + [Chunk(recv.buf[..Min(cfg.maxPacketSize, |recv.buf|)])])
    }

    predicate AtEof()
      requires stateType == Connected ==> bufs.Some?
    {
      match stateType
      case Connecting => false
      case Connected => RemoteFin().Some? && bufs.value.recv.AckNum() == RemoteFin().value
      case Closed => true
    }

    function ProcessReads(): Conn
      requires stateType == Connected ==> bufs.Some?
    {
      match stateType
      case Connecting => this
      case Connected =>
        DeliverKeepsState(this);
        var c := Deliver();
        if c.AtEof() then c.(readOut := c.readOut + [Eof]) else c
      case Closed => this.(readOut := readOut + [ReadError(err)])
    }

    // ------------------------------------------------------------ writing

    function Failures(writes: seq<QueuedWrite>): seq<WriteResult> {
      seq(|writes|, (i: int) requires 0 <= i < |writes| => Failed(writes[i].id, err))
    }

    /** `uint32(MaxPacketSize - 64)`, wrapping in 16 bits. */
    function MaxData(): u16 {
      Sub(cfg.maxPacketSize, 64)
    }

    /** The payloads the next `ProcessWrites` will send. */
    ghost function NextPayloads(): (c: Composed)
      requires Valid() && bufs.Some?
      ensures c.send.Valid()
    {
      ComposeConserves(bufs.value.send, Min(bufs.value.sent.Window(), peerRecvWindow), MaxData());
      Compose(bufs.value.send, Min(bufs.value.sent.Window(), peerRecvWindow), MaxData())
    }

    /** There are sequence numbers left for what is about to be sent. */
    ghost predicate HasNumbers()
      requires Valid()
    {
      stateType == Connected ==> |bufs.value.sent.packets| + |NextPayloads().payloads| <= MAX_PACKETS
    }

    /** Sends payloads under consecutive numbers. Nothing panics: the numbers are fresh and the window suffices. */
    ghost function SendAll(payloads: seq<seq<u8>>, seqNum: u16, clock: Clock): (c: Conn)
      requires Valid() && bufs.Some? && seqNum == bufs.value.sent.NextSeqNum()
      requires |bufs.value.sent.packets| + |payloads| <= MAX_PACKETS
      requires payloads == [] || bufs.value.sent.ctrl.window + |Join(payloads)| <= bufs.value.sent.ctrl.maxWindow
      ensures c.Valid()
      decreases |payloads|
    {
      if payloads == [] then this
      else
        SendFits(this, payloads, clock);
        var p := Stamped(Data, seqNum, TsDiff(), payloads[0], clock);
        Transmit(p, clock).SendAll(payloads[1..], Add(seqNum, 1), clock)
    }

    ghost function ProcessWrites(clock: Clock): (c: Conn)
      requires Valid() && HasNumbers()
      ensures c.Valid()
    {
      match stateType
      case Connecting => this
      case Closed => this.(results := results + Failures(pendingWrites))
      case Connected =>
        var composed := NextPayloads();
        PayloadsFit(this);
        RefillIsValid(composed.send, pendingWrites, results);
        var refilled := Refill(composed.send, pendingWrites, results);
        this.(bufs := Some(bufs.value.(send := refilled.send)), pendingWrites := refilled.writes,
          results := refilled.results)
            .SendAll(composed.payloads, bufs.value.sent.NextSeqNum(), clock)
    }

    function Queued(w: QueuedWrite): Conn {
      this.(pendingWrites := pendingWrites + [w], accepted := accepted + [w], drafts := drafts + [w])
    }

    /**
     * Writers change bytes that they have handed over and that are not in a packet yet: the send buffer and the queue
     * hold slices of their memory, not copies.
     */
    function Rewritten(pending: seq<seq<u8>>, writes: seq<QueuedWrite>, memory: seq<QueuedWrite>): Conn {
      this.(bufs := if bufs.Some? then Some(bufs.value.(send := bufs.value.send.(pending := pending))) else None,
            pendingWrites := writes, drafts := memory)
    }

    /** Queues a write, or refuses it. */
    function Enqueue(id: nat, data: seq<u8>): Conn {
      var w := QueuedWrite(id, data, 0);
      match stateType
      case Connecting => Queued(w)
      case Connected =>
        if closing.None? || (LocalFin().None? && RemoteFin().Some?) then
          Queued(w)
        else this.(results := results + [Refused(id)])
      case Closed => this.(results := results + [Failed(id, err)])
    }

    ghost function OnWrite(id: nat, data: seq<u8>, clock: Clock): (c: Conn)
      requires Valid() && HasNumbers()
      ensures c.Valid()
    {
      Enqueue(id, data).ProcessWrites(clock)
    }

    // ------------------------------------------------------------ shutting down

    predicate WantsFin() {
      stateType == Connected && bufs.Some? && LocalFin().None? && |pendingWrites| == 0 && bufs.value.send.IsEmpty()
    }

    /** The FIN's transmission does not panic, and a sequence number is left for it. */
    predicate CanFin() {
      WantsFin() ==>
        && |bufs.value.sent.packets| < MAX_PACKETS
        && bufs.value.sent.ctrl.window <= bufs.value.sent.ctrl.maxWindow
    }

    ghost function Shutdown(clock: Clock): (c: Conn)
      requires Valid() && CanFin()
      ensures c.Valid()
    {
      match stateType
      case Connecting => this.(stateType := Closed)
      case Closed => this
      case Connected =>
        var remote := RemoteFin();
        if WantsFin() then
          var fin := bufs.value.sent.NextSeqNum();
          FinFits(this, clock);
          this.(closing := Some(Closing(Some(fin), remote))).Transmit(Stamped(Fin, fin, 0, [], clock), clock)
        else if closing.Some? then this
        else this.(closing := Some(Closing(None, None)))
    }

    function OnIdle(): Conn {
      if stateType == Closed then this else this.(stateType := Closed, err := Some(TimeOut))
    }

    /**
     * What the event loop does after each event. A closed connection counts as being at the end of its stream,
     * so its reader is not served again; its writers are told the error, and the loop ends.
     */
    ghost function AfterEvent(shutdown: bool, clock: Clock): (c: Conn)
      requires Valid() && (shutdown ==> CanFin())
      ensures c.Valid()
    {
      var c := if shutdown && stateType != Closed then Shutdown(clock) else this;
      if c.stateType == Closed then c.ProcessWrites(clock) else c
    }

    // ------------------------------------------------------------ timeouts

    /** The old packet with a fresh ack; its extension byte is copied, whether or not it still fits. */
    ghost function Renewed(p: Packet, clock: Clock): Packet
      requires bufs.Some?
    {
      var recv := bufs.value.recv;
      var header := p.header.(wnd := Wrap32(recv.Available()), timestamp := clock.micros, tsDiff := TsDiff(),
                              ackNum := recv.AckNum());
      Packet(header, recv.SelectiveAck(), p.body)
    }

    /** A timeout shrinks the window unless one happened less than a timeout ago. */
    function Slowed(clock: Clock): Conn
      requires bufs.Some?
    {
      var sent := bufs.value.sent;
      if latestTimeout.None? || clock.wall - latestTimeout.value > sent.ctrl.timeout then
        this.(bufs := Some(bufs.value.(sent := sent.(ctrl := sent.ctrl.OnTimeout()))),
          latestTimeout := Some(clock.wall))
      else this
    }

    /** The timed-out packet is one of ours and can be sent once more. */
    predicate CanResend(p: Packet) {
      stateType == Connected && p.header.ptype != Syn ==> Resendable({p.header.seqNum}) && |p.body| < 0x1_0000_0000
    }

    ghost function OnTimeout(p: Packet, clock: Clock): (c: Conn)
      requires Valid() && CanResend(p)
      ensures c.Valid()
    {
      match stateType
      case Connecting =>
        if endpoint.role == Acceptor then this
        else if endpoint.attempts >= cfg.maxConnAttempts then this.(stateType := Closed, err := Some(TimeOut))
        else this.(endpoint := endpoint.(attempts := endpoint.attempts + 1)).Emit(SynPacket(clock))
      case Connected =>
        if p.header.ptype == Syn then this
        else
          SlowedIsValid(this, clock);
          var c := Slowed(clock);
          RenewedFits(c, p, clock);
          c.Transmit(c.Renewed(p, clock), clock)
      case Closed => this
    }
  }

  // ---------------------------------------------------------------- set-up

  /** `newConnection` without a SYN, and the first lines of its event loop. */
  function Dial(cfg: Config, cidSend: u16, cidRecv: u16, synNum: u16, clock: Clock): Conn {
    var c := Conn(cfg, cidSend, cidRecv, Endpoint(Initiator, synNum, 0, 1), Connecting, None, None, None,
                  0, 0xFFFF_FFFF, [], None, None, [], [], [], [], []);
    c.Emit(c.SynPacket(clock))
  }

  /** `newConnection` for a received SYN, and the first lines of its event loop. */
  ghost function Accept(cfg: Config, cidSend: u16, cidRecv: u16, syn: Packet, synAck: u16, clock: Clock): Conn {
    var c := Conn(cfg, cidSend, cidRecv, Endpoint(Acceptor, syn.header.seqNum, synAck, 0), Connecting, None, None, None,
                  clock.micros - syn.header.timestamp, syn.header.wnd, [], None, None, [], [], [], [], []);
    var state := c.StatePacket(clock);
    var bufs := FreshBuffers(cfg, syn.header.seqNum, Sub(synAck, 1));
    c.(synState := state, stateType := Connected, bufs := Some(bufs)).Emit(state.value)
  }

  // ---------------------------------------------------------------- what keeps the functions defined

  lemma FreshIsValid(cfg: Config, recvInit: u16, sendInit: u16)
    ensures FreshBuffers(cfg, recvInit, sendInit).Valid()
  {
    ConfiguredIsValid(cfg.maxPacketSize, cfg.targetDelay, cfg.initialTimeout, cfg.minTimeout, cfg.maxTimeout,
      cfg.undefinedInt);
  }

  lemma ReceiveIsValid(c: Conn, seqNum: u16, body: seq<u8>)
    requires c.Valid() && c.bufs.Some?
    ensures c.Receive(seqNum, body).Valid()
  {
    WriteRecords(c.bufs.value.recv, body, seqNum);
  }

  lemma DispatchIsValid(c: Conn, p: Packet)
    requires c.Valid()
    ensures c.Dispatch(p).Valid()
  {
    match p.header.ptype
    case Syn =>
    case State => FreshIsValid(c.cfg, Sub(p.header.seqNum, 1), c.endpoint.synNum);
    case Data => if c.stateType == Connected { ReceiveIsValid(c, p.header.seqNum, p.body); }
    case Fin => if c.stateType == Connected { ReceiveIsValid(c, p.header.seqNum, p.body); }
    case Reset =>
  }

  lemma AcknowledgeIsValid(c: Conn, p: Packet, clock: Clock)
    requires c.Valid()
    ensures c.Acknowledge(p, clock).Valid()
  {
    if c.stateType == Connected {
      OnAckEffect(c.bufs.value.sent, p.header.ackNum, p.eack, p.header.tsDiff * 1000, clock);
    }
  }

  /** Replacing the record of sent packets by a valid one. */
  lemma WithSent(c: Conn, t: SentState, out: seq<Packet>)
    requires c.Valid() && c.bufs.Some? && t.Valid()
    ensures c.(bufs := Some(c.bufs.value.(sent := t)), out := out).Valid()
  {
  }

  /** Repeating one lost packet leaves the others repeatable. */
  lemma ResendNext(c: Conn, lost: set<u16>, q: u16, clock: Clock)
    requires c.Valid() && c.Resendable(lost) && q in lost
    ensures Index(c.bufs.value.sent.init, q) < |c.bufs.value.sent.packets|
    ensures c.CanTransmit(c.Repeat(q, clock))
    ensures var d := c.Transmit(c.Repeat(q, clock), clock); d.Valid() && d.Resendable(lost - {q})
  {
    var s := c.bufs.value.sent;
    var p := s.packets[Index(s.init, q)];
    assert Matches(s.ctrl.tx[q], p);
    Retransmission(s, q, p.ptype, p.data, clock.now);
    var t := s.OnTransmit(q, p.ptype, p.data, clock.now);
    WithSent(c, t, c.out + [c.Repeat(q, clock)]);
    OthersKeepCounters(s.ctrl.tx, t.ctrl.tx, q, lost);
    var d := c.Transmit(c.Repeat(q, clock), clock);
    assert d == c.(bufs := Some(c.bufs.value.(sent := t)), out := c.out + [c.Repeat(q, clock)]);
  }

  /** Sending a packet again changes nothing of what any packet carries. */
  lemma ResendChangesTimesOnly(c: Conn, q: u16, clock: Clock)
    requires c.Valid() && c.Resendable({q})
    ensures Index(c.bufs.value.sent.init, q) < |c.bufs.value.sent.packets| && c.CanTransmit(c.Repeat(q, clock))
    ensures var s, t := c.bufs.value.sent, c.Transmit(c.Repeat(q, clock), clock).bufs.value.sent;
            t.init == s.init && SameContents(s.packets, t.packets)
  {
    ResendNext(c, {q}, q, clock);
    var s := c.bufs.value.sent;
    var p := s.packets[Index(s.init, q)];
    assert Matches(s.ctrl.tx[q], p);
    Retransmission(s, q, p.ptype, p.data, clock.now);
  }

  lemma OthersKeepCounters(a: map<u16, Record>, b: map<u16, Record>, q: u16, lost: set<u16>)
    requires q in a && a[q].num < 0xFFFF_FFFF && b == a[q := a[q].(num := a[q].num + 1)]
    requires forall x :: x in lost ==> x in a && a[x].num < 0xFFFF_FFFF
    ensures forall x :: x in lost - {q} ==> x in b && b[x].num < 0xFFFF_FFFF
  {
  }

  lemma SplitFurther(whole: seq<u8>, front: seq<u8>, rest: seq<u8>, payloads: seq<seq<u8>>, kept: seq<u8>)
    requires whole == front + rest && rest == Join(payloads) + kept
    ensures whole == Join([front] + payloads) + kept && |Join([front] + payloads)| == |front| + |Join(payloads)|
  {
    JoinCons(front, payloads);
    assert front + (Join(payloads) + kept) == (front + Join(payloads)) + kept;
  }

  /** The payloads and what is left are together what was there, and the payloads fit the window. */
  ghost predicate CutFrom(c: Composed, send: SendState, window: nat)
    requires send.Valid()
  {
    && c.send.Valid() && c.send.size == send.size
    && |Join(c.payloads)| <= window && send.Contents() == Join(c.payloads) + c.send.Contents()
  }

  lemma CutNothing(send: SendState, left: SendState, window: nat)
    requires send.Valid() && left.Valid() && left.size == send.size && left.Contents() == send.Contents()
    ensures CutFrom(Composed([], left), send, window)
  {
    assert Join<u8>([]) + left.Contents() == left.Contents();
  }

  lemma CutAgain(send: SendState, front: seq<u8>, read: SendState, rest: Composed, whole: Composed, window: nat)
    requires send.Valid() && read.Valid() && read.size == send.size && send.Contents() == front + read.Contents()
    requires |front| <= window && CutFrom(rest, read, window - |front|)
    requires whole == Composed([front] + rest.payloads, rest.send)
    ensures CutFrom(whole, send, window)
  {
    SplitFurther(send.Contents(), front, read.Contents(), rest.payloads, rest.send.Contents());
  }

  lemma ComposeStops(send: SendState, window: nat, maxData: nat)
    requires send.Valid() && (window == 0 || send.Front(Min(window, maxData)) == [])
    ensures CutFrom(Compose(send, window, maxData), send, window)
  {
    if window == 0 {
      CutNothing(send, send, window);
    } else {
      var left := send.Read(Min(window, maxData));
      ReadTakesFront(send, Min(window, maxData));
      assert [] + left.Contents() == left.Contents();
      CutNothing(send, left, window);
    }
  }

  lemma {:induction false} ComposeConserves(send: SendState, window: nat, maxData: nat)
    requires send.Valid()
    ensures CutFrom(Compose(send, window, maxData), send, window)
    decreases window
  {
    var cap := Min(window, maxData);
    if window == 0 || send.Front(cap) == [] {
      ComposeStops(send, window, maxData);
    } else {
      var front, read := send.Front(cap), send.Read(cap);
      ReadTakesFront(send, cap);
      ComposeStep(send, window, maxData);
      ComposeConserves(read, window - |front|, maxData);
      CutAgain(send, front, read, Compose(read, window - |front|, maxData), Compose(send, window, maxData), window);
    }
  }

  /** What is cut fits the congestion window. */
  lemma PayloadsFit(c: Conn)
    requires c.Valid() && c.bufs.Some?
    ensures var payloads := c.NextPayloads().payloads;
            payloads == [] || c.bufs.value.sent.ctrl.window + |Join(payloads)| <= c.bufs.value.sent.ctrl.maxWindow
  {
    ComposeConserves(c.bufs.value.send, Min(c.bufs.value.sent.Window(), c.peerRecvWindow), c.MaxData());
  }

  lemma ComposeStep(send: SendState, window: nat, maxData: nat)
    requires send.Valid() && window > 0 && send.Front(Min(window, maxData)) != []
    ensures var cap := Min(window, maxData); var front, read := send.Front(cap), send.Read(cap);
            && read.Valid() && |front| <= window
            && var rest := Compose(read, window - |front|, maxData);
               Compose(send, window, maxData) == Composed([front] + rest.payloads, rest.send)
  {
    ReadTakesFront(send, Min(window, maxData));
  }

  /** Payloads are not empty and not larger than asked for. */
  predicate WellCut(payloads: seq<seq<u8>>, maxData: nat) {
    forall i :: 0 <= i < |payloads| ==> 0 < |payloads[i]| <= maxData
  }

  lemma {:induction false} ComposeCuts(send: SendState, window: nat, maxData: nat)
    requires send.Valid()
    ensures WellCut(Compose(send, window, maxData).payloads, maxData)
    decreases window
  {
    if window != 0 {
      var cap := Min(window, maxData);
      ReadTakesFront(send, cap);
      if send.Front(cap) != [] {
        ComposeCuts(send.Read(cap), window - |send.Front(cap)|, maxData);
      }
    }
  }

  lemma SendFits(c: Conn, payloads: seq<seq<u8>>, clock: Clock)
    requires c.Valid() && c.bufs.Some? && payloads != []
    requires |c.bufs.value.sent.packets| + |payloads| <= MAX_PACKETS
    requires c.bufs.value.sent.ctrl.window + |Join(payloads)| <= c.bufs.value.sent.ctrl.maxWindow
    ensures var p := c.Stamped(Data, c.bufs.value.sent.NextSeqNum(), c.TsDiff(), payloads[0], clock);
            && c.CanTransmit(p) && c.Transmit(p, clock).Valid()
            && var s, t := c.bufs.value.sent, c.Transmit(p, clock).bufs.value.sent;
               && t.init == s.init
               && t.packets == s.packets + [SentPacket(s.NextSeqNum(), Data, payloads[0], clock.now, clock.now, [])]
               && t.NextSeqNum() == Add(s.NextSeqNum(), 1)
               && t.ctrl.window + |Join(payloads[1..])| <= t.ctrl.maxWindow
  {
    var s := c.bufs.value.sent;
    JoinCons(payloads[0], payloads[1..]);
    assert payloads == [payloads[0]] + payloads[1..];
    FreshTransmission(s, Data, payloads[0], clock.now);
    NextNumber(s);
    NextNumber(s.OnTransmit(s.NextSeqNum(), Data, payloads[0], clock.now));
  }

  lemma FinFits(c: Conn, clock: Clock)
    requires c.Valid() && c.WantsFin() && c.CanFin()
    ensures var fin := c.bufs.value.sent.NextSeqNum(); var p := c.Stamped(Fin, fin, 0, [], clock);
            && c.CanTransmit(p) && c.Transmit(p, clock).Valid()
            && var d := c.(closing := Some(Closing(Some(fin), c.RemoteFin())));
               d.CanTransmit(p) && d.Transmit(p, clock).Valid()
  {
    FreshTransmission(c.bufs.value.sent, Fin, [], clock.now);
  }

  lemma SlowedIsValid(c: Conn, clock: Clock)
    requires c.Valid() && c.bufs.Some?
    ensures c.Slowed(clock).Valid() && c.Slowed(clock).bufs.Some?
    ensures c.Slowed(clock).bufs.value.sent.ctrl.tx == c.bufs.value.sent.ctrl.tx
    ensures c.Slowed(clock).bufs.value ==
            c.bufs.value.(sent := c.bufs.value.sent.(ctrl := c.Slowed(clock).bufs.value.sent.ctrl))
  {
    ExpireKeeps(c.bufs.value.sent);
  }

  lemma RenewedFits(c: Conn, p: Packet, clock: Clock)
    requires c.Valid() && c.Resendable({p.header.seqNum}) && |p.body| < 0x1_0000_0000
    ensures c.CanTransmit(c.Renewed(p, clock)) && c.Transmit(c.Renewed(p, clock), clock).Valid()
  {
    assert p.header.seqNum in c.bufs.value.sent.ctrl.tx;
    Retransmission(c.bufs.value.sent, p.header.seqNum, p.header.ptype, p.body, clock.now);
  }

  lemma {:induction false} DeliverKeepsState(c: Conn)
    requires c.bufs.Some?
    ensures c.Deliver() == c.(bufs := c.Deliver().bufs, readOut := c.Deliver().readOut) && c.Deliver().bufs.Some?
    ensures c.Deliver().bufs.value == c.bufs.value.(recv := c.bufs.value.recv.(buf := c.Deliver().bufs.value.recv.buf))
    decreases |c.bufs.value.recv.buf|
  {
    if Min(c.cfg.maxPacketSize, |c.bufs.value.recv.buf|) != 0 {
      DeliverKeepsState(c.HandOver());
    }
  }

  /** Handing over bytes only makes room. */
  lemma {:induction false} DeliverIsValid(c: Conn)
    requires c.bufs.Some? && c.bufs.value.Valid()
    ensures c.Deliver().bufs.Some? && c.Deliver().bufs.value.Valid()
    decreases |c.bufs.value.recv.buf|
  {
    if Min(c.cfg.maxPacketSize, |c.bufs.value.recv.buf|) != 0 {
      DeliverIsValid(c.HandOver());
    }
  }

  lemma ProcessReadsIsValid(c: Conn)
    requires c.Valid()
    ensures c.ProcessReads().Valid()
  {
    if c.stateType == Connected {
      DeliverKeepsState(c);
      DeliverIsValid(c);
    }
  }
}
