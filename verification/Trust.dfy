/** What keeps the assembled bytes those of the peer, and the acks backed by what the peer has received. */
module Trust {
  import opened Words
  import opened Collections
  import opened Packets
  import opened ReceiveBuffers
  import opened Sending
  import opened Connections
  import opened Invariants
  import opened Handlers
  import opened Writers

  // ---------------------------------------------------------------- steps that touch neither

  /** Packets may be added, but none is newly acked. */
  predicate NoNewAcks(a: seq<SentPacket>, b: seq<SentPacket>) {
    SentGrows(a, b) && |b| < 0xFFFF && forall k :: 0 <= k < |b| && b[k].Acked() ==> k < |a| && a[k].Acked()
  }

  /** From c to c1 nothing has been received or read, and nothing newly acked. */
  predicate Quietly(c: Conn, c1: Conn) {
    && c1.endpoint == c.endpoint.(attempts := c1.endpoint.attempts) && c1.readOut == c.readOut
    && (c1.bufs.Some? <==> c.bufs.Some?) && (c.bufs.Some? ==> c1.bufs.value.recv == c.bufs.value.recv)
    && NoNewAcks(SentOf(c.bufs), SentOf(c1.bufs))
  }

  lemma QuietlyChains(c: Conn, c1: Conn, c2: Conn)
    requires Quietly(c, c1) && Quietly(c1, c2)
    ensures Quietly(c, c2)
  {
  }

  lemma SameIsQuiet(c: Conn, c1: Conn)
    requires c.Valid() && c1.endpoint == c.endpoint && c1.readOut == c.readOut
    requires (c1.bufs.Some? <==> c.bufs.Some?)
    requires c.bufs.Some? ==> c1.bufs.value.recv == c.bufs.value.recv && c1.bufs.value.sent == c.bufs.value.sent
    ensures Quietly(c, c1)
  {
  }

  /** Growth of what was sent keeps what was delivered right. */
  lemma DeliveredGrows(s: Endpoint, a: seq<SentPacket>, b: seq<SentPacket>, r: Option<Buffers>, reading: seq<ReadEvent>)
    requires Delivered(s, a, r, reading) && SentGrows(a, b)
    ensures Delivered(s, b, r, reading)
  {
    if r.Some? {
      SourceGrows(SendInit(s), a, b);
      AgreesMonotone(r.value.recv, Source(SendInit(s), a), Source(SendInit(s), b), BytesRead(reading));
    }
  }

  /** From c to c1, what was right is right and what was wrong is wrong, of the bytes as of the acks. */
  predicate SameWorth(c: Conn, c1: Conn, d: Conn) {
    (Assembled(c1, d) <==> Assembled(c, d)) && (Backed(c1, d) <==> Backed(c, d))
  }

  lemma QuietlyIsSame(c: Conn, c1: Conn, d: Conn)
    requires Quietly(c, c1)
    ensures SameWorth(c, c1, d)
  {
  }

  /** Whatever one endpoint does, it spoils nothing of what the other has assembled or takes for acked. */
  lemma PeerStaysRight(c: Conn, c1: Conn, d: Conn)
    requires Progress(c, c1) && |SentOf(d.bufs)| < 0xFFFF
    ensures Assembled(d, c) ==> Assembled(d, c1)
    ensures Backed(d, c) ==> Backed(d, c1)
  {
    if Assembled(d, c) {
      DeliveredGrows(c.endpoint, SentOf(c.bufs), SentOf(c1.bufs), d.bufs, d.readOut);
    }
  }

  lemma {:induction false} ResendAllIsQuiet(c: Conn, lost: set<u16>, clock: Clock)
    requires c.Valid() && c.Resendable(lost)
    ensures Quietly(c, c.ResendAll(lost, clock))
    decreases |lost|
  {
    if lost != {} {
      var q := Smallest(lost);
      ResendNext(c, lost, q, clock);
      var c1 := c.Transmit(c.Repeat(q, clock), clock);
      RepeatIsQuiet(c, c.Repeat(q, clock), clock);
      ResendAllIsQuiet(c1, lost - {q}, clock);
      QuietlyChains(c, c1, c1.ResendAll(lost - {q}, clock));
    }
  }

  lemma RepeatIsQuiet(c: Conn, p: Packet, clock: Clock)
    requires c.Valid() && c.bufs.Some? && Carries(c.bufs.value.sent, p)
    requires c.bufs.value.sent.ctrl.tx[p.header.seqNum].num < 0xFFFF_FFFF
    ensures c.CanTransmit(p) && Quietly(c, c.Transmit(p, clock))
  {
    ResendFits(c.bufs.value.sent, p, clock);
  }

  lemma RetransmitLostIsQuiet(c: Conn, clock: Clock)
    requires c.Valid() && c.CanRetransmit()
    ensures Quietly(c, c.RetransmitLost(clock))
  {
    if c.stateType == Connected {
      ResendAllIsQuiet(c, c.bufs.value.sent.lost, clock);
    }
  }

  lemma RespondIsQuiet(c: Conn, p: Packet, clock: Clock)
    requires c.Valid()
    ensures Quietly(c, c.Respond(p, clock))
  {
    var sent := c.Respond(p, clock);
    assert sent == c.(synState := sent.synState, out := sent.out);
  }

  lemma ProcessWritesIsQuiet(c: Conn, clock: Clock)
    requires c.Valid() && c.HasNumbers()
    ensures Quietly(c, c.ProcessWrites(clock))
  {
    if c.stateType == Connected {
      var sent := ProcessWritesFlushes(c, clock);
      ExtendsGrows(SentOf(c.bufs), SentOf(c.ProcessWrites(clock).bufs), c.NextPayloads().payloads);
    }
  }

  lemma OnWriteIsQuiet(c: Conn, id: nat, data: seq<u8>, clock: Clock)
    requires c.Valid() && c.HasNumbers()
    ensures Quietly(c, c.OnWrite(id, data, clock))
  {
    ProcessWritesIsQuiet(c.Enqueue(id, data), clock);
  }

  lemma ShutdownIsQuiet(c: Conn, clock: Clock)
    requires c.Valid() && c.CanFin()
    ensures Quietly(c, c.Shutdown(clock))
  {
    if c.WantsFin() {
      var fin := c.bufs.value.sent.NextSeqNum();
      FinFits(c, clock);
      FinIsGenuine(c, clock);
      FinishedGrows(c.bufs.value.sent.packets, c.bufs.value.sent.OnTransmit(fin, Fin, [], clock.now).packets, fin);
    }
  }

  lemma AfterEventIsQuiet(c: Conn, shutdown: bool, clock: Clock)
    requires c.Valid() && (shutdown ==> c.CanFin())
    ensures Quietly(c, c.AfterEvent(shutdown, clock))
  {
    var c1 := if shutdown && c.stateType != Closed then c.Shutdown(clock) else c;
    if shutdown && c.stateType != Closed {
      ShutdownIsQuiet(c, clock);
    }
    if c1.stateType == Closed {
      ProcessWritesIsQuiet(c1, clock);
      QuietlyChains(c, c1, c1.ProcessWrites(clock));
    }
  }

  lemma OnTimeoutIsQuiet(c: Conn, p: Packet, clock: Clock)
    requires c.Valid() && c.CanResend(p) && OutOk(c.endpoint, c.bufs, c.out)
    requires p in c.out && (p.header.ptype == Syn || p.header.ptype == Data || p.header.ptype == Fin)
    ensures Quietly(c, c.OnTimeout(p, clock))
  {
    if c.stateType == Connected && p.header.ptype != Syn {
      assert Genuine(c.endpoint, c.bufs, p);
      SlowedIsValid(c, clock);
      var c1 := c.Slowed(clock);
      RepeatIsQuiet(c1, c1.Renewed(p, clock), clock);
    }
  }

  // ---------------------------------------------------------------- reading

  /** What is read was readable, so reading neither spoils nor mends anything. */
  lemma HandOverIsSame(c: Conn, d: Conn)
    requires c.bufs.Some?
    ensures SameWorth(c, c.HandOver(), d)
  {
    var buf := c.bufs.value.recv.buf;
    var n := Min(c.cfg.maxPacketSize, |buf|);
    BytesReadSnoc(c.readOut, Chunk(buf[..n]));
    assert (BytesRead(c.readOut) + buf[..n]) + buf[n..] == BytesRead(c.readOut) + buf;
  }

  lemma {:induction false} DeliverIsSame(c: Conn, d: Conn)
    requires c.bufs.Some?
    ensures SameWorth(c, c.Deliver(), d)
    decreases |c.bufs.value.recv.buf|
  {
    if Min(c.cfg.maxPacketSize, |c.bufs.value.recv.buf|) != 0 {
      HandOverIsSame(c, d);
      DeliverIsSame(c.HandOver(), d);
    }
  }

  lemma EventIsSame(c: Conn, e: ReadEvent, d: Conn)
    requires !e.Chunk?
    ensures SameWorth(c, c.(readOut := c.readOut + [e]), d)
  {
    BytesReadSnoc(c.readOut, e);
    assert BytesRead(c.readOut) + [] == BytesRead(c.readOut);
  }

  lemma ProcessReadsIsSame(c: Conn, d: Conn)
    requires c.Valid()
    ensures SameWorth(c, c.ProcessReads(), d)
  {
    match c.stateType
    case Connecting =>
    case Closed => EventIsSame(c, ReadError(c.err), d);
    case Connected =>
      DeliverKeepsState(c);
      DeliverIsSame(c, d);
      EventIsSame(c.Deliver(), Eof, d);
  }

  lemma StatusIsNoMatter(c: Conn, stateType: StateType, err: Option<ConnError>, closing: Option<Closing>, d: Conn)
    ensures SameWorth(c, c.(stateType := stateType, err := err, closing := closing), d)
  {
  }

  lemma ConcludeIsSame(c: Conn, d: Conn)
    requires c.Valid()
    ensures SameWorth(c, c.Conclude(), d)
  {
    var c1 := c.CloseIfAcked();
    StatusIsNoMatter(c, Closed, None, c.closing, d);
    CloseIfDrainedIsSame(c1, d);
    var c2 := c1.CloseIfDrained();
    StatusIsNoMatter(c2, Closed, None, c2.closing, d);
  }

  lemma CloseIfDrainedIsSame(c: Conn, d: Conn)
    requires c.Valid()
    ensures SameWorth(c, c.CloseIfDrained(), d)
  {
    ProcessReadsIsSame(c, d);
    StatusIsNoMatter(c.ProcessReads(), Closed, None, c.ProcessReads().closing, d);
  }

  // ---------------------------------------------------------------- receiving, exactly

  /** Number q of the sender carries these bytes. */
  predicate IsPayload(d: Conn, q: u16, body: seq<u8>) {
    IsSent(d, q) && SentOf(d.bufs)[Index(SendInit(d.endpoint), q)].data == body
  }

  /** One payload is wrong: it still waits under its number, or it has spoilt what is assembled. */
  predicate WrongAt(r: RecvState, src: map<u16, seq<u8>>, out: seq<u8>, q: u16) {
    && Covers(src, r.init, r.consumed)
    && (forall x :: x in r.pending ==> x in src && (x != q ==> r.pending[x] == src[x]))
    && if q in r.pending then r.pending[q] != src[q] && out + r.buf == Assemble(src, r.init, r.consumed)
       else out + r.buf != Assemble(src, r.init, r.consumed)
  }

  lemma WrongIsWrong(r: RecvState, src: map<u16, seq<u8>>, out: seq<u8>, q: u16)
    requires WrongAt(r, src, out, q)
    ensures !r.Agrees(src, out)
  {
  }

  lemma DifferentFronts(a: seq<u8>, b: seq<u8>, x: seq<u8>)
    requires a != b
    ensures a + x != b + x
  {
    if |a| == |b| {
      assert exists i :: 0 <= i < |a| && a[i] != b[i];
      var i :| 0 <= i < |a| && a[i] != b[i];
      assert (a + x)[i] != (b + x)[i];
    }
  }

  lemma DifferentBacks(a: seq<u8>, x: seq<u8>, y: seq<u8>)
    requires x != y
    ensures a + x != a + y
  {
    if |x| == |y| {
      assert exists i :: 0 <= i < |x| && x[i] != y[i];
      var i :| 0 <= i < |x| && x[i] != y[i];
      assert (a + x)[|a| + i] != (a + y)[|a| + i];
    }
  }

  lemma AdvanceStaysWrong(r: RecvState, src: map<u16, seq<u8>>, out: seq<u8>, q: u16)
    requires r.Ahead() && WrongAt(r, src, out, q) && Add(Add(r.init, 1), r.consumed) in r.pending
    ensures WrongAt(Advance(r), src, out, q)
  {
    AdvanceConserves(r);
    var next := Add(Add(r.init, 1), r.consumed);
    assert next == Add(r.init, r.consumed + 1);
    forall o: u16 | 1 <= o <= r.consumed + 1 ensures Add(r.init, o) in src {
      assert o <= r.consumed || Add(r.init, o) == next;
    }
    var whole, x := Assemble(src, r.init, r.consumed), r.pending[next];
    assert out + (r.buf + x) == (out + r.buf) + x;
    if next == q {
      DifferentBacks(whole, x, src[next]);
    } else if q !in r.pending {
      DifferentFronts(out + r.buf, whole, x);
    }
  }

  lemma {:induction false} DrainStaysWrong(r: RecvState, src: map<u16, seq<u8>>, out: seq<u8>, q: u16)
    requires r.Ahead() && WrongAt(r, src, out, q)
    ensures WrongAt(r.Drain(), src, out, q)
    decreases |r.pending|
  {
    if Add(Add(r.init, 1), r.consumed) in r.pending {
      AdvanceConserves(r);
      AdvanceStaysWrong(r, src, out, q);
      DrainStaysWrong(Advance(r), src, out, q);
    }
  }

  /**
   * What is assembled stays right if and only if the payload is right or not accepted, whatever waits and in whatever
   * order.
   */
  lemma WriteAgreesIff(r: RecvState, src: map<u16, seq<u8>>, out: seq<u8>, data: seq<u8>, q: u16)
    requires r.Valid() && r.Agrees(src, out) && q in src
    ensures r.Write(data, q).Agrees(src, out) <==> !r.Accepts(data, q) || data == src[q]
  {
    if r.Accepts(data, q) && data != src[q] {
      WrittenIsWithinReach(r, q);
      var r1 := r.(pending := r.pending[q := data]);
      DrainStaysWrong(r1, src, out, q);
      WrongIsWrong(r1.Drain(), src, out, q);
    } else {
      WriteAgrees(r, src, out, data, q);
    }
  }

  /** The body is that of its number, or the receiver will not take it. */
  ghost predicate BodyFits(c: Conn, q: u16, body: seq<u8>, d: Conn)
    requires c.bufs.Some?
  {
    c.bufs.value.recv.Accepts(body, q) ==> IsPayload(d, q, body)
  }

  lemma ReceiveAssemblesIff(c: Conn, q: u16, body: seq<u8>, d: Conn)
    requires c.Valid() && Assembled(c, d) && c.bufs.Some? && IsSent(d, q)
    ensures Assembled(c.Receive(q, body), d) <==> BodyFits(c, q, body, d)
  {
    var r := c.bufs.value.recv;
    var src := Source(SendInit(d.endpoint), SentOf(d.bufs));
    WriteRecords(r, body, q);
    WriteAgreesIff(r, src, BytesRead(c.readOut), body, q);
    assert src[q] == SentOf(d.bufs)[Index(SendInit(d.endpoint), q)].data;
  }

  // ---------------------------------------------------------------- acks, exactly

  /** Every sent packet the bitmap names has been received. */
  predicate BitsHeld(init: u16, n: nat, ackNum: u16, eack: Option<SelectiveAck>, r: Option<Buffers>)
    requires n <= MAX_PACKETS
  {
    eack.Some? ==>
      forall k :: 0 <= k < n && Bitmap(eack.value.Acked(), Index(init, ackNum) + 3, k) ==>
        r.Some? && r.value.recv.WasWritten(Number(init, k))
  }

  /** What an honest ack number settles, the peer has received. */
  lemma NumberedWasReceived(r: RecvState, p: Packet, k: nat)
    requires HonestNumber(r, p) && k < MAX_PACKETS && p.header.ackNum != r.init && k <= Index(r.init, p.header.ackNum)
    ensures r.WasWritten(Number(r.init, k))
  {
    IndexOfNumber(r.init, k);
    WrittenIsWithinReach(r, Number(r.init, k));
  }

  /** What an honest bitmap names, the peer has received. */
  lemma VouchedIsHeld(r: Buffers, p: Packet, n: nat)
    requires n <= MAX_PACKETS && Truthful(r.recv, p) && p.header.ackNum != r.recv.init
    ensures BitsHeld(r.recv.init, n, p.header.ackNum, p.eack, Some(r))
  {
    if p.eack.Some? {
      var i := Index(r.recv.init, p.header.ackNum);
      forall k | 0 <= k < n && Bitmap(p.eack.value.Acked(), i + 3, k)
        ensures r.recv.WasWritten(Number(r.recv.init, k))
      {
        IndexOfNumber(r.recv.init, k);
        assert Add(Add(p.header.ackNum, 2), k - i - 2) == Number(r.recv.init, k);
      }
    }
  }

  /** No phantom acks: with an honest number, the acks stay held if and only if the bits are. */
  lemma AckKeepsHeldIff(e: Endpoint, a: seq<SentPacket>, b: seq<SentPacket>, r: Buffers, p: Packet)
    requires AcksHeld(e, a, Some(r)) && |a| == |b| <= MAX_PACKETS && r.recv.init == SendInit(e)
    requires HonestNumber(r.recv, p)
    requires p.header.ackNum != SendInit(e) && AckedBy(SendInit(e), a, b, p.header.ackNum, p.eack)
    ensures AcksHeld(e, b, Some(r)) <==> BitsHeld(SendInit(e), |a|, p.header.ackNum, p.eack, Some(r))
  {
    var init, i := SendInit(e), Index(SendInit(e), p.header.ackNum);
    if BitsHeld(init, |a|, p.header.ackNum, p.eack, Some(r)) {
      forall k | 0 <= k < |b| && b[k].Acked() ensures r.recv.WasWritten(Number(init, k)) {
        if !a[k].Acked() && k <= i {
          NumberedWasReceived(r.recv, p, k);
        }
      }
    } else {
      var k :| 0 <= k < |a| && Bitmap(p.eack.value.Acked(), i + 3, k) && !r.recv.WasWritten(Number(init, k));
      assert b[k].Acked();
    }
  }

  /** The ack claims nothing of ours that the peer d has not received. */
  predicate BitmapFits(c: Conn, p: Packet, d: Conn) {
    && c.stateType == Connected && c.bufs.Some? && |SentOf(c.bufs)| <= MAX_PACKETS
    && p.header.ackNum != c.bufs.value.sent.init ==>
      BitsHeld(c.bufs.value.sent.init, |SentOf(c.bufs)|, p.header.ackNum, p.eack, d.bufs)
  }

  lemma OnAckBacksIff(c: Conn, p: Packet, delay: int, clock: Clock, d: Conn)
    requires Local(c) && Linked(c, d) && Backed(c, d) && d.bufs.Some? && HonestNumber(d.bufs.value.recv, p)
    requires c.bufs.Some?
    ensures var (t, error) := c.bufs.value.sent.OnAck(p.header.ackNum, p.eack, delay, clock);
            && error != Some(InvalidAckNum)
            && (Backed(WithList(c, t), d) <==> (p.header.ackNum != c.bufs.value.sent.init ==>
                 BitsHeld(c.bufs.value.sent.init, |SentOf(c.bufs)|, p.header.ackNum, p.eack, d.bufs)))
  {
    var s := c.bufs.value.sent;
    AckIsInRange(s, d.bufs.value.recv, p);
    OnAckEffect(s, p.header.ackNum, p.eack, delay, clock);
    var t := s.OnAck(p.header.ackNum, p.eack, delay, clock).0;
    AckRelists(s, t, p);
    if p.header.ackNum != s.init {
      AckKeepsHeldIff(c.endpoint, s.packets, t.packets, d.bufs.value, p);
    }
  }

  lemma ProcessAckBacksIff(c: Conn, p: Packet, delay: int, clock: Clock, d: Conn)
    requires Local(c) && Linked(c, d) && Backed(c, d) && d.bufs.Some? && HonestNumber(d.bufs.value.recv, p)
    ensures Backed(c.ProcessAck(p.header.ackNum, p.eack, delay, clock), d) <==> BitmapFits(c, p, d)
  {
    if c.stateType == Connected {
      OnAckBacksIff(c, p, delay, clock, d);
    }
  }

  // ---------------------------------------------------------------- connecting

  lemma OnStateAssembles(c: Conn, p: Packet, d: Conn)
    requires Local(c) && Linked(c, d) && Assembled(c, d) && p in d.out && p.header.ptype == State
    ensures Assembled(c.OnState(p.header.seqNum, p.header.ackNum), d)
  {
    if c.stateType == Connecting && c.endpoint.role == Initiator && p.header.ackNum == c.endpoint.synNum {
      assert Sub(p.header.seqNum, 1) == SendInit(d.endpoint);
      ConnectAssembles(c, c.OnState(p.header.seqNum, p.header.ackNum), d);
    }
  }

  lemma ConnectAssembles(c: Conn, c1: Conn, d: Conn)
    requires Assembled(c, d) && c.bufs.None? && c1.readOut == c.readOut && c1.bufs.Some?
    requires var r := c1.bufs.value.recv;
             r.init == SendInit(d.endpoint) && r.consumed == 0 && r.buf == [] && r.pending == map[]
    ensures Assembled(c1, d)
  {
  }

  // ---------------------------------------------------------------- one packet, exactly

  /** The packet's body goes nowhere, or is that of its number. */
  ghost predicate StreamFits(c: Conn, g: Packet, d: Conn)
    requires c.Valid()
  {
    c.stateType == Connected && (g.header.ptype == Data || (g.header.ptype == Fin && c.RemoteFin().None?)) ==>
      BodyFits(c, g.header.seqNum, g.body, d)
  }

  /** The packet's bitmap claims nothing of ours that the peer has not received. */
  predicate AcksFit(c: Conn, g: Packet, d: Conn) {
    g.header.ptype == State || g.header.ptype == Data || g.header.ptype == Fin ==> BitmapFits(c, g, d)
  }

  lemma OnDataAssemblesIff(c: Conn, q: u16, body: seq<u8>, d: Conn)
    requires Local(c) && Linked(c, d) && Assembled(c, d) && Local(d) && body != [] && IsSent(d, q)
    ensures Assembled(c.OnData(q, body), d) <==> (c.stateType == Connected ==> BodyFits(c, q, body, d))
  {
    SentIsBeforeFin(c, q, d);
    if c.stateType == Connected {
      ReceiveAssemblesIff(c, q, body, d);
    }
  }

  lemma OnFinAssemblesIff(c: Conn, q: u16, body: seq<u8>, d: Conn)
    requires Local(c) && Linked(c, d) && Assembled(c, d) && Local(d) && IsFin(d, q)
    ensures Assembled(c.OnFin(q, body), d) <==>
            (c.stateType == Connected && c.RemoteFin().None? ==> BodyFits(c, q, body, d))
  {
    if c.stateType == Connected {
      if c.RemoteFin().Some? {
        RepeatedFinIsSame(c, q, body, d);
      } else {
        FirstFinAssemblesIff(c, q, body, d);
      }
    }
  }

  lemma FirstFinAssemblesIff(c: Conn, q: u16, body: seq<u8>, d: Conn)
    requires Local(c) && Assembled(c, d) && IsSent(d, q) && c.stateType == Connected && c.RemoteFin().None?
    ensures Assembled(c.OnFin(q, body), d) <==> BodyFits(c, q, body, d)
  {
    var c1 := c.Receive(q, body);
    ReceiveAssemblesIff(c, q, body, d);
    FirstFinIsNoted(c, q, body);
    StatusIsNoMatter(c1, c1.stateType, c1.err, Some(Closing(c.LocalFin(), Some(q))), d);
  }

  lemma DispatchAssemblesIff(c: Conn, g: Packet, p: Packet, d: Conn)
    requires Local(c) && Linked(c, d) && Assembled(c, d) && Local(d) && Comes(g, p, d)
    ensures Assembled(c.Dispatch(g), d) <==> StreamFits(c, g, d)
  {
    if g.header.ptype == Data || g.header.ptype == Fin {
      BodyAssemblesIff(c, g, p, d);
    } else {
      RestAssembles(c, g, p, d);
    }
  }

  lemma BodyAssemblesIff(c: Conn, g: Packet, p: Packet, d: Conn)
    requires Local(c) && Linked(c, d) && Assembled(c, d) && Local(d) && Comes(g, p, d)
    requires g.header.ptype == Data || g.header.ptype == Fin
    ensures Assembled(c.Dispatch(g), d) <==> StreamFits(c, g, d)
  {
    assert Genuine(d.endpoint, d.bufs, p);
    if g.header.ptype == Data {
      OnDataAssemblesIff(c, g.header.seqNum, g.body, d);
    } else {
      OnFinAssemblesIff(c, g.header.seqNum, g.body, d);
    }
  }

  lemma RestAssembles(c: Conn, g: Packet, p: Packet, d: Conn)
    requires Local(c) && Linked(c, d) && Assembled(c, d) && Local(d) && Comes(g, p, d)
    requires g.header.ptype != Data && g.header.ptype != Fin
    ensures Assembled(c.Dispatch(g), d)
  {
    StatusIsNoMatter(c, Closed, c.err, c.closing, d);
    StatusIsNoMatter(c, Closed, Some(PeerReset), c.closing, d);
    if g.header.ptype == Syn {
      assert Genuine(d.endpoint, d.bufs, p);
    } else if g.header.ptype == State {
      OnStateAssembles(c, p, d);
    }
  }

  /** The same status and the same sent packets. */
  predicate SameSending(c: Conn, c1: Conn) {
    && c1.stateType == c.stateType && c1.endpoint == c.endpoint && (c1.bufs.Some? <==> c.bufs.Some?)
    && (c.bufs.Some? ==> c1.bufs.value.sent == c.bufs.value.sent)
  }

  lemma BodyLeavesSending(c: Conn, g: Packet, p: Packet, d: Conn)
    requires c.Valid() && Linked(c, d) && Local(d) && Comes(g, p, d)
    requires (g.header.ptype == Data || g.header.ptype == Fin)
    ensures SameSending(c, c.Dispatch(g))
  {
    assert Genuine(d.endpoint, d.bufs, p);
    if g.header.ptype == Data {
      SentIsBeforeFin(c, g.header.seqNum, d);
    } else if c.RemoteFin().Some? {
      RepeatedFinIsSame(c, g.header.seqNum, g.body, d);
    }
  }

  /** Dispatching a packet of the peer leaves the sending side alone, unless it connects. */
  lemma DispatchLeavesAcks(c: Conn, g: Packet, p: Packet, d: Conn)
    requires Local(c) && Linked(c, d) && Local(d) && Comes(g, p, d) && g.header.ptype != Reset
    ensures AcksFit(c.Dispatch(g), g, d) <==> AcksFit(c, g, d)
  {
    if g.header.ptype == Data || g.header.ptype == Fin {
      BodyLeavesSending(c, g, p, d);
    }
  }

  /** Nor does it ack anything. */
  lemma DispatchBacks(c: Conn, g: Packet, p: Packet, d: Conn)
    requires Local(c) && Linked(c, d) && Local(d) && Comes(g, p, d)
    ensures Backed(c.Dispatch(g), d) <==> Backed(c, d)
  {
    if g.header.ptype == Data || g.header.ptype == Fin {
      BodyLeavesSending(c, g, p, d);
    }
  }

  lemma AcknowledgeBacksIff(c: Conn, g: Packet, p: Packet, clock: Clock, d: Conn)
    requires Local(c) && Linked(c, d) && Backed(c, d) && Local(d) && Comes(g, p, d)
    ensures Backed(c.Acknowledge(g, clock), d) <==> AcksFit(c, g, d)
  {
    if g.header.ptype == State || g.header.ptype == Data || g.header.ptype == Fin {
      assert Genuine(d.endpoint, d.bufs, p);
      ProcessAckBacksIff(c, g, g.header.tsDiff * 1000, clock, d);
    }
  }

  /** Acks do not mend what is assembled. */
  lemma AcknowledgeReadsNothing(c: Conn, g: Packet, clock: Clock)
    requires c.Valid()
    ensures var c1 := c.Acknowledge(g, clock);
            && c1.readOut == c.readOut && (c1.bufs.Some? <==> c.bufs.Some?)
            && (c.bufs.Some? ==> c1.bufs.value.recv == c.bufs.value.recv)
  {
  }

  lemma ObserveIsNoMatter(c: Conn, g: Packet, clock: Clock, d: Conn)
    requires c.Valid()
    ensures SameWorth(c, c.Observe(g, clock), d)
    ensures StreamFits(c.Observe(g, clock), g, d) <==> StreamFits(c, g, d)
    ensures AcksFit(c.Observe(g, clock), g, d) <==> AcksFit(c, g, d)
  {
  }

  lemma DispatchThenAckAssemblesIff(c: Conn, g: Packet, p: Packet, clock: Clock, d: Conn)
    requires Local(c) && Linked(c, d) && Assembled(c, d) && Local(d) && Comes(g, p, d)
    ensures c.Dispatch(g).Valid() && (Assembled(c.Dispatch(g).Acknowledge(g, clock), d) <==> StreamFits(c, g, d))
  {
    DispatchKeeps(c, g, p, d);
    DispatchAssemblesIff(c, g, p, d);
    AcknowledgeReadsNothing(c.Dispatch(g), g, clock);
  }

  lemma DispatchThenAckBacksIff(c: Conn, g: Packet, p: Packet, clock: Clock, d: Conn)
    requires Local(c) && Linked(c, d) && Backed(c, d) && Local(d) && Comes(g, p, d)
    ensures c.Dispatch(g).Valid() && (Backed(c.Dispatch(g).Acknowledge(g, clock), d) <==> AcksFit(c, g, d))
  {
    DispatchKeeps(c, g, p, d);
    DispatchBacks(c, g, p, d);
    AcknowledgeBacksIff(c.Dispatch(g), g, p, clock, d);
    if g.header.ptype != Reset {
      DispatchLeavesAcks(c, g, p, d);
    }
  }

  /**
   * Whatever came off the wire under the header of a packet of the peer: what is assembled stays right if and only if
   * its body fits.
   */
  lemma HandledAssemblesIff(c: Conn, g: Packet, p: Packet, clock: Clock, d: Conn)
    requires Local(c) && Linked(c, d) && Assembled(c, d) && Local(d) && Comes(g, p, d)
    ensures Assembled(c.Handled(g, clock), d) <==> StreamFits(c, g, d)
  {
    ObserveKeeps(c, g, clock, d);
    ObserveIsNoMatter(c, g, clock, d);
    DispatchThenAckAssemblesIff(c.Observe(g, clock), g, p, clock, d);
  }

  /** And what is taken for acked stays backed if and only if its bitmap fits. */
  lemma HandledBacksIff(c: Conn, g: Packet, p: Packet, clock: Clock, d: Conn)
    requires Local(c) && Linked(c, d) && Backed(c, d) && Local(d) && Comes(g, p, d)
    ensures Backed(c.Handled(g, clock), d) <==> AcksFit(c, g, d)
  {
    ObserveKeeps(c, g, clock, d);
    ObserveIsNoMatter(c, g, clock, d);
    DispatchThenAckBacksIff(c.Observe(g, clock), g, p, clock, d);
  }

  lemma AnswerIsSame(c: Conn, g: Packet, clock: Clock, d: Conn)
    requires c.Valid() && c.CanRetransmit()
    ensures SameWorth(c, c.Answer(g, clock), d)
  {
    RetransmitLostIsQuiet(c, clock);
    var c1 := c.RetransmitLost(clock);
    RespondIsQuiet(c1, g, clock);
    QuietlyChains(c, c1, c1.Respond(g, clock));
    QuietlyIsSame(c, c1.Respond(g, clock), d);
    ConcludeIsSame(c1.Respond(g, clock), d);
  }
}
