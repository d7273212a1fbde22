/** Every handler of one endpoint keeps the invariant of the pair, and nothing goes back. */
module Handlers {
  import opened Words
  import opened Collections
  import opened CircularRanges
  import opened Packets
  import opened ReceiveBuffers
  import opened Sending
  import opened Connections
  import opened Invariants

  // ---------------------------------------------------------------- frames

  lemma SameKeeps(c: Conn, d: Conn)
    requires Local(c) && Linked(c, d)
    ensures Keeps(c, c, d)
  {
  }

  /** The receiving side of two states is the same. */
  predicate SameReceiver(c: Conn, c1: Conn) {
    && c1.readOut == c.readOut && c1.RemoteFin() == c.RemoteFin()
    && (c1.bufs.Some? <==> c.bufs.Some?) && (c.bufs.Some? ==> c1.bufs.value.recv == c.bufs.value.recv)
  }

  /** The sending side of two states is the same. */
  predicate SameSender(c: Conn, c1: Conn) {
    c1.out == c.out && SentOf(c1.bufs) == SentOf(c.bufs) && (c.bufs.Some? ==> c1.bufs.Some?)
  }

  /** A step on the sending side: its STATEs must suit an unconnected peer. */
  lemma SenderSteps(c: Conn, c1: Conn, d: Conn)
    requires Linked(c, d) && c1.endpoint == c.endpoint && SameReceiver(c, c1)
    requires SentGrows(SentOf(c.bufs), SentOf(c1.bufs)) && |SentOf(c1.bufs)| < 0xFFFF
    requires Handshake(c.endpoint, c1.out, d.bufs)
    ensures Linked(c1, d)
  {
  }

  /** A step on the receiving side: its numbers must be the peer's. */
  lemma ReceiverSteps(c: Conn, c1: Conn, d: Conn)
    requires Linked(c, d) && c1.endpoint == c.endpoint && SameSender(c, c1) && c.bufs.Some?
    requires Reached(d.endpoint, SentOf(d.bufs), c1.bufs)
    requires FinSeen(d.endpoint, SentOf(d.bufs), c1.RemoteFin()) && EofHeld(c1.bufs, c1.RemoteFin(), c1.readOut)
    ensures Linked(c1, d)
  {
  }

  /** Two states that agree on everything but status, windows and clocks. */
  predicate SameBooks(c: Conn, c1: Conn) {
    && c1.cfg == c.cfg && c1.endpoint == c.endpoint && c1.bufs == c.bufs && c1.closing == c.closing
    && c1.synState == c.synState
    && c1.pendingWrites == c.pendingWrites && c1.accepted == c.accepted && c1.drafts == c.drafts
    && c1.out == c.out && c1.readOut == c.readOut && c1.results == c.results
  }

  lemma QuietLocal(c: Conn, c1: Conn)
    requires Local(c) && SameBooks(c, c1) && Harmless(c1.err) && (c1.stateType == c.stateType || c1.stateType == Closed)
    ensures Local(c1) && Progress(c, c1)
  {
  }

  /** A step that touches neither side. */
  lemma QuietSteps(c: Conn, c1: Conn, d: Conn)
    requires Local(c) && Linked(c, d) && SameBooks(c, c1) && Harmless(c1.err)
    requires (c1.stateType == c.stateType || c1.stateType == Closed)
    ensures Keeps(c, c1, d)
  {
    QuietLocal(c, c1);
  }

  // ---------------------------------------------------------------- closing and bookkeeping

  /** Ending a connection with a harmless error, or with none. */
  lemma CloseKeeps(c: Conn, err: Option<ConnError>, d: Conn)
    requires Local(c) && Linked(c, d) && Harmless(err)
    ensures Keeps(c, c.(stateType := Closed, err := err), d)
  {
    QuietSteps(c, c.(stateType := Closed, err := err), d);
  }

  lemma AbortKeeps(c: Conn, d: Conn)
    requires Local(c) && Linked(c, d)
    ensures Keeps(c, c.Abort(PeerReset), d)
  {
    CloseKeeps(c, c.err, d);
    CloseKeeps(c, Some(PeerReset), d);
  }

  lemma ObserveKeeps(c: Conn, p: Packet, clock: Clock, d: Conn)
    requires Local(c) && Linked(c, d)
    ensures Keeps(c, c.Observe(p, clock), d)
  {
    QuietSteps(c, c.Observe(p, clock), d);
  }

  // ---------------------------------------------------------------- emitting a packet

  /** The current ack number and selective ack claim only what was received. */
  lemma AckIsTruthful(r: RecvState, p: Packet)
    requires r.Valid() && p.header.ackNum == r.AckNum() && p.eack == r.SelectiveAck()
    requires p.header.version < 16 && p.header.extension <= 1
    ensures Truthful(r, p) && Sendable(p)
  {
    assert Sub(r.AckNum(), r.init) == r.consumed;
    if p.eack.Some? {
      SelectiveAckIsExact(r);
    }
  }

  /** Only a STATE needs a connected peer. */
  lemma EmitKeeps(c: Conn, p: Packet, d: Conn)
    requires Local(c) && Linked(c, d) && Genuine(c.endpoint, c.bufs, p) && (d.bufs.Some? || p.header.ptype != State)
    ensures Keeps(c, c.Emit(p), d)
  {
    EmitLocal(c, p);
    HandshakeAppend(c.endpoint, c.out, p, d.bufs);
    SenderSteps(c, c.Emit(p), d);
  }

  lemma EmitLocal(c: Conn, p: Packet)
    requires Local(c) && Genuine(c.endpoint, c.bufs, p)
    ensures Local(c.Emit(p)) && Progress(c, c.Emit(p))
  {
    OutOkAppend(c.endpoint, c.bufs, c.out, p);
  }

  // ---------------------------------------------------------------- changing the record of sent packets

  lemma SamePlaces(a: seq<SentPacket>, b: seq<SentPacket>, fin: Option<u16>, idle: bool)
    requires SameContents(a, b) && Sequenced(a, fin, idle)
    ensures Sequenced(b, fin, idle)
  {
    forall k | 0 <= k < |b| ensures Placed(b, k, fin) {
      assert Placed(a, k, fin);
    }
  }

  lemma SameBytes(b: Option<Buffers>, b1: Option<Buffers>, writes: seq<QueuedWrite>, accepted: seq<QueuedWrite>)
    requires b.Some? && b1.Some? && b1.value.send == b.value.send
    requires SameContents(b.value.sent.packets, b1.value.sent.packets)
    requires Conserved(b, writes, accepted)
    ensures Conserved(b1, writes, accepted)
  {
    assert Payloads(b.value.sent.packets) == Payloads(b1.value.sent.packets);
    assert Outstanding(b1) == Outstanding(b);
  }

  function WithList(c: Conn, t: SentState): Conn
    requires c.bufs.Some?
  {
    c.(bufs := Some(c.bufs.value.(sent := t)))
  }

  /** New acks, new times or a new controller; the packets themselves stay. */
  predicate Relisted(s: SentState, t: SentState) {
    t.init == s.init && SentGrows(s.packets, t.packets) && SameContents(s.packets, t.packets)
  }

  lemma RelistKeeps(c: Conn, t: SentState, d: Conn)
    requires Local(c) && Linked(c, d) && c.bufs.Some? && t.Valid() && Relisted(c.bufs.value.sent, t)
    ensures Keeps(c, WithList(c, t), d)
  {
    RelistLocal(c, t);
    SenderSteps(c, WithList(c, t), d);
  }

  lemma RelistLocal(c: Conn, t: SentState)
    requires Local(c) && c.bufs.Some? && t.Valid() && Relisted(c.bufs.value.sent, t)
    ensures Local(WithList(c, t)) && Progress(c, WithList(c, t))
  {
    var b1 := WithList(c, t).bufs;
    GenuineGrows(c.endpoint, c.bufs, b1, c.out);
    SamePlaces(c.bufs.value.sent.packets, t.packets, c.LocalFin(), Idle(c));
    SameBytes(c.bufs, b1, c.pendingWrites, c.drafts);
  }

  // ---------------------------------------------------------------- retransmissions

  /** Packet p repeats one of ours, with a current ack. */
  predicate IsRepeat(c: Conn, p: Packet) {
    && c.bufs.Some? && Carries(c.bufs.value.sent, p) && (p.header.ptype == Data || p.header.ptype == Fin)
    && p.header.ackNum == c.bufs.value.recv.AckNum() && p.eack == c.bufs.value.recv.SelectiveAck()
    && p.header.version < 16 && p.header.extension <= 1
  }

  /** Sending one of our packets again. */
  lemma ResendKeeps(c: Conn, p: Packet, clock: Clock, d: Conn)
    requires Local(c) && Linked(c, d) && IsRepeat(c, p) && c.bufs.value.sent.ctrl.tx[p.header.seqNum].num < 0xFFFF_FFFF
    ensures c.CanTransmit(p) && Keeps(c, c.Transmit(p, clock), d)
  {
    var s := c.bufs.value.sent;
    ResendFits(s, p, clock);
    var t := s.OnTransmit(p.header.seqNum, p.header.ptype, p.body, clock.now);
    RelistKeeps(c, t, d);
    ResentIsGenuine(c, t, p);
    EmitKeeps(WithList(c, t), p, d);
    KeepsChains(c, WithList(c, t), WithList(c, t).Emit(p), d);
  }

  lemma ResendFits(s: SentState, p: Packet, clock: Clock)
    requires s.Valid() && Carries(s, p) && s.ctrl.tx[p.header.seqNum].num < 0xFFFF_FFFF
    ensures |p.body| < 0x1_0000_0000 && s.CanTransmit(p.header.seqNum, |p.body|)
    ensures var t := s.OnTransmit(p.header.seqNum, p.header.ptype, p.body, clock.now);
            && t.Valid() && Relisted(s, t)
            && forall k :: 0 <= k < |s.packets| && t.packets[k].Acked() ==> s.packets[k].Acked()
  {
    var q := p.header.seqNum;
    assert Matches(s.ctrl.tx[q], s.packets[Index(s.init, q)]);
    Retransmission(s, q, p.header.ptype, p.body, clock.now);
    RetimedIsSame(s.packets, Index(s.init, q), clock.now);
  }

  lemma RetimedIsSame(a: seq<SentPacket>, k: nat, now: int)
    requires k < |a|
    ensures var b := a[k := a[k].(retransmission := now)];
            SentGrows(a, b) && SameContents(a, b) && forall i :: 0 <= i < |a| && b[i].Acked() ==> a[i].Acked()
  {
  }

  lemma ResentIsGenuine(c: Conn, t: SentState, p: Packet)
    requires IsRepeat(c, p) && c.bufs.value.recv.Valid() && Relisted(c.bufs.value.sent, t)
    ensures Genuine(c.endpoint, WithList(c, t).bufs, p)
  {
    AckIsTruthful(c.bufs.value.recv, p);
  }

  lemma {:induction false} ResendAllKeeps(c: Conn, lost: set<u16>, clock: Clock, d: Conn)
    requires Local(c) && Linked(c, d) && c.Resendable(lost)
    ensures Keeps(c, c.ResendAll(lost, clock), d)
    decreases |lost|
  {
    if lost == {} {
      SameKeeps(c, d);
    } else {
      var q := Smallest(lost);
      ResendNext(c, lost, q, clock);
      RepeatIsRepeat(c, q, clock);
      ResendKeeps(c, c.Repeat(q, clock), clock, d);
      var c1 := c.Transmit(c.Repeat(q, clock), clock);
      ResendAllKeeps(c1, lost - {q}, clock, d);
      KeepsChains(c, c1, c1.ResendAll(lost - {q}, clock), d);
    }
  }

  lemma RepeatIsRepeat(c: Conn, q: u16, clock: Clock)
    requires c.bufs.Some? && Index(c.bufs.value.sent.init, q) < |c.bufs.value.sent.packets|
    requires Sequenced(c.bufs.value.sent.packets, c.LocalFin(), Idle(c))
    ensures IsRepeat(c, c.Repeat(q, clock))
  {
    assert Placed(c.bufs.value.sent.packets, Index(c.bufs.value.sent.init, q), c.LocalFin());
  }

  lemma RetransmitLostKeeps(c: Conn, clock: Clock, d: Conn)
    requires Local(c) && Linked(c, d) && c.CanRetransmit()
    ensures Keeps(c, c.RetransmitLost(clock), d)
  {
    if c.stateType == Connected {
      ResendAllKeeps(c, c.bufs.value.sent.lost, clock, d);
    } else {
      SameKeeps(c, d);
    }
  }

  // ---------------------------------------------------------------- acks

  /** The packet's ack number is one its sender has reached. */
  predicate HonestNumber(r: RecvState, p: Packet) {
    Sub(p.header.ackNum, r.init) <= r.consumed
  }

  /** An honest ack lies within what was sent. */
  lemma AckIsInRange(s: SentState, r: RecvState, p: Packet)
    requires s.Valid() && HonestNumber(r, p) && r.init == s.init && r.consumed <= |s.packets|
    ensures p.header.ackNum == s.init || Index(s.init, p.header.ackNum) < |s.packets|
  {
  }

  /** An ack with an honest number is never rejected, whatever its bitmap says. */
  lemma ProcessAckKeeps(c: Conn, p: Packet, delay: int, clock: Clock, d: Conn)
    requires Local(c) && Linked(c, d) && d.bufs.Some? && HonestNumber(d.bufs.value.recv, p)
    ensures Keeps(c, c.ProcessAck(p.header.ackNum, p.eack, delay, clock), d)
  {
    if c.stateType == Connected {
      var s := c.bufs.value.sent;
      AckIsInRange(s, d.bufs.value.recv, p);
      OnAckEffect(s, p.header.ackNum, p.eack, delay, clock);
      var t := s.OnAck(p.header.ackNum, p.eack, delay, clock).0;
      AckRelists(s, t, p);
      RelistKeeps(c, t, d);
    } else {
      SameKeeps(c, d);
    }
  }

  lemma AckRelists(s: SentState, t: SentState, p: Packet)
    requires t.init == s.init && SamePackets(s.packets, t.packets)
    requires t == s || AckedBy(s.init, s.packets, t.packets, p.header.ackNum, p.eack)
    ensures Relisted(s, t)
  {
  }

  /** What came off the wire has the header of a packet the peer sent; its bitmap and body may be anything. */
  predicate Echoes(g: Packet, p: Packet) {
    g.header == p.header.(timestamp := g.header.timestamp) && (p.header.ptype == Data ==> g.body != [])
  }

  /** A RESET from outside, or an echo of what the peer has sent. */
  predicate Comes(g: Packet, p: Packet, d: Conn) {
    g.header.ptype == Reset || (p in d.out && Echoes(g, p))
  }

  lemma AcknowledgeKeeps(c: Conn, g: Packet, p: Packet, clock: Clock, d: Conn)
    requires Local(c) && Linked(c, d) && OutOk(d.endpoint, d.bufs, d.out) && Comes(g, p, d)
    ensures Keeps(c, c.Acknowledge(g, clock), d)
  {
    if g.header.ptype != Reset {
      assert Genuine(d.endpoint, d.bufs, p);
    }
    match g.header.ptype
    case State => ProcessAckKeeps(c, g, g.header.tsDiff * 1000, clock, d);
    case Data => ProcessAckKeeps(c, g, g.header.tsDiff * 1000, clock, d);
    case Fin => ProcessAckKeeps(c, g, g.header.tsDiff * 1000, clock, d);
    case Syn => SameKeeps(c, d);
    case Reset => SameKeeps(c, d);
  }

  // ---------------------------------------------------------------- connecting

  /** The first STATE tells the initiator where the acceptor's numbers start. */
  lemma OnStateKeeps(c: Conn, p: Packet, d: Conn)
    requires Local(c) && Linked(c, d) && p in d.out && p.header.ptype == State
    ensures Keeps(c, c.OnState(p.header.seqNum, p.header.ackNum), d)
  {
    if c.stateType == Connecting && c.endpoint.role == Initiator && p.header.ackNum == c.endpoint.synNum {
      assert Sub(p.header.seqNum, 1) == SendInit(d.endpoint);
      ConnectLocal(c, SendInit(d.endpoint));
      ConnectLinked(c, c.OnState(p.header.seqNum, p.header.ackNum), d);
    } else {
      SameKeeps(c, d);
    }
  }

  lemma ConnectLocal(c: Conn, recvInit: u16)
    requires Local(c) && c.stateType == Connecting && c.endpoint.role == Initiator
    ensures var c1 := c.(stateType := Connected, bufs := Some(FreshBuffers(c.cfg, recvInit, c.endpoint.synNum)));
            Local(c1) && Progress(c, c1)
  {
    var b1 := Some(FreshBuffers(c.cfg, recvInit, c.endpoint.synNum));
    FreshIsValid(c.cfg, recvInit, c.endpoint.synNum);
    GenuineGrows(c.endpoint, c.bufs, b1, c.out);
    FreshConserves(b1.value, c.pendingWrites, c.drafts);
  }

  lemma FreshConserves(b: Buffers, writes: seq<QueuedWrite>, accepted: seq<QueuedWrite>)
    requires b.sent.packets == [] && b.send.pending == [] && b.send.WellPlaced() && Conserved(None, writes, accepted)
    ensures Conserved(Some(b), writes, accepted)
  {
    assert Outstanding(Some(b)) == [];
  }

  lemma ConnectLinked(c: Conn, c1: Conn, d: Conn)
    requires Linked(c, d) && c.bufs.None? && c1 == c.(stateType := c1.stateType, bufs := c1.bufs) && c1.bufs.Some?
    requires SentOf(c1.bufs) == []
    requires var r := c1.bufs.value.recv;
             r.init == SendInit(d.endpoint) && r.consumed == 0 && r.buf == [] && r.pending == map[]
    ensures Linked(c1, d)
  {
  }

  // ---------------------------------------------------------------- receiving

  /** One turn of the drain loop moves one number up, which was sent. */
  lemma {:induction false} DrainStaysWithin(r: RecvState, init: u16, n: nat)
    requires r.Ahead() && WithinReach(r, init, n)
    ensures WithinReach(r.Drain(), init, n)
    decreases |r.pending|
  {
    if Add(Add(r.init, 1), r.consumed) in r.pending {
      AdvanceConserves(r);
      DrainStaysWithin(Advance(r), init, n);
    }
  }

  lemma WriteStaysWithin(r: RecvState, data: seq<u8>, q: u16, init: u16, n: nat)
    requires r.Valid() && WithinReach(r, init, n) && Index(init, q) < n
    ensures WithinReach(r.Write(data, q), init, n)
  {
    if r.Accepts(data, q) {
      WrittenIsWithinReach(r, q);
      DrainStaysWithin(r.(pending := r.pending[q := data]), init, n);
    }
  }

  /** Number q is one the sender has used. */
  predicate IsSent(d: Conn, q: u16) {
    Index(SendInit(d.endpoint), q) < |SentOf(d.bufs)|
  }

  /** After the end of the stream was reported, every number of the sender has been received. */
  lemma EofMeansAllReceived(c: Conn, q: u16, d: Conn)
    requires Linked(c, d) && Local(d) && Eof in c.readOut && IsSent(d, q)
    ensures c.bufs.value.recv.WasWritten(q)
  {
    FinIsLast(d, c.RemoteFin().value);
    WrittenIsWithinReach(c.bufs.value.recv, q);
  }

  lemma ReceiveKeeps(c: Conn, q: u16, body: seq<u8>, d: Conn)
    requires Local(c) && Linked(c, d) && Local(d) && c.bufs.Some? && IsSent(d, q)
    ensures Keeps(c, c.Receive(q, body), d)
  {
    var r := c.bufs.value.recv;
    WriteRecords(r, body, q);
    WriteStaysWithin(r, body, q, SendInit(d.endpoint), |SentOf(d.bufs)|);
    if Eof in c.readOut {
      EofMeansAllReceived(c, q, d);
    }
    var r1 := r.Write(body, q);
    ReceivedLocal(c, r1);
    ReceiverSteps(c, WithReceived(c, r1), d);
  }

  function WithReceived(c: Conn, r: RecvState): Conn
    requires c.bufs.Some?
  {
    c.(bufs := Some(c.bufs.value.(recv := r)))
  }

  lemma ReceivedLocal(c: Conn, r: RecvState)
    requires Local(c) && c.bufs.Some? && r.Valid() && RecvGrows(c.bufs.value.recv, r)
    ensures Local(WithReceived(c, r)) && Progress(c, WithReceived(c, r))
  {
    var b1 := WithReceived(c, r).bufs;
    GenuineGrows(c.endpoint, c.bufs, b1, c.out);
    assert Outstanding(b1) == Outstanding(c.bufs);
  }

  /** A DATA packet of the peer is never past its FIN. */
  lemma OnDataKeeps(c: Conn, q: u16, body: seq<u8>, d: Conn)
    requires Local(c) && Linked(c, d) && Local(d) && body != [] && IsSent(d, q)
    ensures Keeps(c, c.OnData(q, body), d)
  {
    SentIsBeforeFin(c, q, d);
    SameKeeps(c, d);
    if c.stateType == Connected {
      ReceiveKeeps(c, q, body, d);
    }
  }

  lemma SentIsBeforeFin(c: Conn, q: u16, d: Conn)
    requires Linked(c, d) && Local(d) && IsSent(d, q)
    ensures c.bufs.Some? && c.RemoteFin().Some? ==> Contains(c.bufs.value.recv.init, c.RemoteFin().value, q)
  {
    if c.bufs.Some? && c.RemoteFin().Some? {
      FinIsLast(d, c.RemoteFin().value);
      ContainsIsDistance(c.bufs.value.recv.init, c.RemoteFin().value, q);
    }
  }

  lemma NoteClosingKeeps(c: Conn, cl: Closing, d: Conn)
    requires Local(c) && Linked(c, d) && c.bufs.Some? && cl.localFin == c.LocalFin()
    requires WriteOnce(c.RemoteFin(), cl.remoteFin)
    requires FinSeen(d.endpoint, SentOf(d.bufs), cl.remoteFin)
    ensures Keeps(c, c.(closing := Some(cl)), d)
  {
  }

  /** Number q is the sender's FIN. */
  predicate IsFin(d: Conn, q: u16) {
    FinSeen(d.endpoint, SentOf(d.bufs), Some(q))
  }

  /** A second FIN of the peer never disagrees with the first. */
  lemma RepeatedFinIsSame(c: Conn, q: u16, body: seq<u8>, d: Conn)
    requires c.Valid() && Linked(c, d) && Local(d) && IsFin(d, q) && c.RemoteFin().Some?
    ensures c.OnFin(q, body) == c
  {
    FinIsLast(d, q);
    FinIsLast(d, c.RemoteFin().value);
  }

  lemma OnFinKeeps(c: Conn, q: u16, body: seq<u8>, d: Conn)
    requires Local(c) && Linked(c, d) && Local(d) && IsFin(d, q)
    ensures Keeps(c, c.OnFin(q, body), d)
  {
    SameKeeps(c, d);
    if c.stateType == Connected {
      if c.RemoteFin().Some? {
        RepeatedFinIsSame(c, q, body, d);
      } else {
        FirstFinIsNoted(c, q, body);
        FirstFinKeeps(c, q, body, d);
      }
    }
  }

  lemma FirstFinIsNoted(c: Conn, q: u16, body: seq<u8>)
    requires c.Valid() && c.stateType == Connected && c.RemoteFin().None?
    ensures var noted := Some(Closing(c.LocalFin(), Some(q)));
            c.OnFin(q, body) == c || c.OnFin(q, body) == c.Receive(q, body).(closing := noted)
  {
  }

  lemma FirstFinKeeps(c: Conn, q: u16, body: seq<u8>, d: Conn)
    requires Local(c) && Linked(c, d) && Local(d) && c.bufs.Some? && c.RemoteFin().None? && IsFin(d, q)
    ensures Keeps(c, c.Receive(q, body).(closing := Some(Closing(c.LocalFin(), Some(q)))), d)
  {
    var c1 := c.Receive(q, body);
    ReceiveKeeps(c, q, body, d);
    NoteClosingKeeps(c1, Closing(c.LocalFin(), Some(q)), d);
    KeepsChains(c, c1, c1.(closing := Some(Closing(c.LocalFin(), Some(q)))), d);
  }

  lemma DispatchKeeps(c: Conn, g: Packet, p: Packet, d: Conn)
    requires Local(c) && Linked(c, d) && Local(d) && Comes(g, p, d)
    ensures Keeps(c, c.Dispatch(g), d)
  {
    SameKeeps(c, d);
    if g.header.ptype != Reset {
      assert Genuine(d.endpoint, d.bufs, p);
    }
    match g.header.ptype
    case Syn =>
    case State => OnStateKeeps(c, p, d);
    case Data => OnDataKeeps(c, g.header.seqNum, g.body, d);
    case Fin => OnFinKeeps(c, g.header.seqNum, g.body, d);
    case Reset => AbortKeeps(c, d);
  }

  // ---------------------------------------------------------------- answering

  lemma RespondKeeps(c: Conn, g: Packet, p: Packet, clock: Clock, d: Conn)
    requires Local(c) && Linked(c, d) && OutOk(d.endpoint, d.bufs, d.out) && Comes(g, p, d)
    ensures Keeps(c, c.Respond(g, clock), d)
  {
    SameKeeps(c, d);
    if g.header.ptype != Reset {
      assert Genuine(d.endpoint, d.bufs, p);
      if (g.header.ptype == Data || g.header.ptype == Fin) && c.StatePacket(clock).Some? {
        AckIsTruthful(c.bufs.value.recv, c.StatePacket(clock).value);
        EmitKeeps(c, c.StatePacket(clock).value, d);
      }
    }
  }

  // ---------------------------------------------------------------- reading

  /** One more event for the reader. */
  function Reporting(c: Conn, r: RecvState, e: ReadEvent): Conn
    requires c.bufs.Some?
  {
    c.(bufs := Some(c.bufs.value.(recv := r)), readOut := c.readOut + [e])
  }

  lemma ReportLocal(c: Conn, n: nat, e: ReadEvent)
    requires Local(c) && c.bufs.Some? && n <= |c.bufs.value.recv.buf|
    ensures var c1 := Reporting(c, c.bufs.value.recv.Read(n), e); Local(c1) && Progress(c, c1)
  {
    var r1 := c.bufs.value.recv.Read(n);
    ReceivedLocal(c, r1);
    assert Reporting(c, r1, e) == WithReceived(c, r1).(readOut := c.readOut + [e]);
  }

  /** Handing over the first n readable bytes. */
  lemma ChunkKeeps(c: Conn, n: nat, d: Conn)
    requires Local(c) && Linked(c, d) && c.bufs.Some? && 0 < n <= |c.bufs.value.recv.buf|
    ensures Keeps(c, Reporting(c, c.bufs.value.recv.Read(n), Chunk(c.bufs.value.recv.buf[..n])), d)
  {
    var r := c.bufs.value.recv;
    var e := Chunk(r.buf[..n]);
    ReportLocal(c, n, e);
    ReceiverSteps(c, Reporting(c, r.Read(n), e), d);
  }

  /** All readable bytes are handed over. */
  lemma {:induction false} DeliverKeeps(c: Conn, d: Conn)
    requires Local(c) && Linked(c, d) && c.bufs.Some?
    ensures Keeps(c, c.Deliver(), d) && c.Deliver().bufs.Some? && c.Deliver().bufs.value.recv.buf == []
    decreases |c.bufs.value.recv.buf|
  {
    var buf := c.bufs.value.recv.buf;
    var n := Min(c.cfg.maxPacketSize, |buf|);
    if n == 0 {
      SameKeeps(c, d);
    } else {
      var c1 := c.HandOver();
      ChunkKeeps(c, n, d);
      assert c1 == Reporting(c, c.bufs.value.recv.Read(n), Chunk(buf[..n]));
      DeliverKeeps(c1, d);
      KeepsChains(c, c1, c1.Deliver(), d);
    }
  }

  lemma EventLocal(c: Conn, e: ReadEvent)
    requires Local(c)
    ensures var c1 := c.(readOut := c.readOut + [e]); Local(c1) && Progress(c, c1)
  {
  }

  /** The end of the stream, or an error, is reported. */
  lemma EventKeeps(c: Conn, e: ReadEvent, d: Conn)
    requires Local(c) && Linked(c, d) && !e.Chunk?
    requires e == Eof ==>
               c.bufs.Some? && c.bufs.value.recv.buf == [] && c.RemoteFin() == Some(c.bufs.value.recv.AckNum())
    ensures Keeps(c, c.(readOut := c.readOut + [e]), d)
  {
    EventLocal(c, e);
    EventLinked(c, e, d);
  }

  lemma EventLinked(c: Conn, e: ReadEvent, d: Conn)
    requires Linked(c, d) && !e.Chunk?
    requires e == Eof ==>
               c.bufs.Some? && c.bufs.value.recv.buf == [] && c.RemoteFin() == Some(c.bufs.value.recv.AckNum())
    ensures Linked(c.(readOut := c.readOut + [e]), d)
  {
    assert EofHeld(c.bufs, c.RemoteFin(), c.readOut + [e]);
  }

  lemma ProcessReadsKeeps(c: Conn, d: Conn)
    requires Local(c) && Linked(c, d)
    ensures Keeps(c, c.ProcessReads(), d)
  {
    match c.stateType
    case Connecting => SameKeeps(c, d);
    case Connected =>
      DeliverKeepsState(c);
      DeliverKeeps(c, d);
      var c1 := c.Deliver();
      if c1.AtEof() {
        EventKeeps(c1, Eof, d);
        KeepsChains(c, c1, c1.(readOut := c1.readOut + [Eof]), d);
      }
    case Closed => EventKeeps(c, ReadError(c.err), d);
  }

  // ---------------------------------------------------------------- one packet

  lemma CloseIfAckedKeeps(c: Conn, d: Conn)
    requires Local(c) && Linked(c, d)
    ensures Keeps(c, c.CloseIfAcked(), d)
  {
    SameKeeps(c, d);
    CloseKeeps(c, None, d);
  }

  lemma CloseIfDrainedKeeps(c: Conn, d: Conn)
    requires Local(c) && Linked(c, d)
    ensures Keeps(c, c.CloseIfDrained(), d)
  {
    SameKeeps(c, d);
    ProcessReadsKeeps(c, d);
    var c1 := c.ProcessReads();
    CloseKeeps(c1, None, d);
    KeepsChains(c, c1, c1.(stateType := Closed, err := None), d);
  }

  lemma CloseIfBothFinsKeeps(c: Conn, d: Conn)
    requires Local(c) && Linked(c, d)
    ensures Keeps(c, c.CloseIfBothFins(), d)
  {
    SameKeeps(c, d);
    CloseKeeps(c, None, d);
  }

  lemma HandledKeeps(c: Conn, g: Packet, p: Packet, clock: Clock, d: Conn)
    requires Local(c) && Linked(c, d) && Local(d) && Comes(g, p, d)
    ensures Keeps(c, c.Handled(g, clock), d)
  {
    var c1 := c.Observe(g, clock);
    ObserveKeeps(c, g, clock, d);
    DispatchKeeps(c1, g, p, d);
    var c2 := c1.Dispatch(g);
    KeepsChains(c, c1, c2, d);
    AcknowledgeKeeps(c2, g, p, clock, d);
    KeepsChains(c, c2, c2.Acknowledge(g, clock), d);
  }

  /**
   * Whatever the peer has ever sent may arrive, in any order and any number of times, and with whatever bitmap
   * and body the wire made of it; so may a RESET from outside.
   */
  lemma OnPacketKeeps(c: Conn, g: Packet, p: Packet, clock: Clock, d: Conn)
    requires Local(c) && Linked(c, d) && Local(d) && Comes(g, p, d)
    requires c.Handled(g, clock).CanRetransmit()
    ensures Keeps(c, c.OnPacket(g, clock), d)
  {
    HandledKeeps(c, g, p, clock, d);
    AnswerKeeps(c.Handled(g, clock), g, p, clock, d);
    KeepsChains(c, c.Handled(g, clock), c.OnPacket(g, clock), d);
  }

  lemma AnswerKeeps(c: Conn, g: Packet, p: Packet, clock: Clock, d: Conn)
    requires Local(c) && Linked(c, d) && OutOk(d.endpoint, d.bufs, d.out) && Comes(g, p, d) && c.CanRetransmit()
    ensures Keeps(c, c.Answer(g, clock), d)
  {
    RetransmitLostKeeps(c, clock, d);
    var c1 := c.RetransmitLost(clock);
    RespondKeeps(c1, g, p, clock, d);
    var c2 := c1.Respond(g, clock);
    KeepsChains(c, c1, c2, d);
    ConcludeKeeps(c2, d);
    KeepsChains(c, c2, c2.Conclude(), d);
  }

  lemma ConcludeKeeps(c: Conn, d: Conn)
    requires Local(c) && Linked(c, d)
    ensures Keeps(c, c.Conclude(), d)
  {
    CloseIfAckedKeeps(c, d);
    var c1 := c.CloseIfAcked();
    CloseIfDrainedKeeps(c1, d);
    var c2 := c1.CloseIfDrained();
    KeepsChains(c, c1, c2, d);
    CloseIfBothFinsKeeps(c2, d);
    KeepsChains(c, c2, c2.CloseIfBothFins(), d);
  }
}
