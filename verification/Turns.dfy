/** What single turns do to a connection on which nothing has been acked, written out. */
module Turns {
  import opened Words
  import opened Collections
  import opened Packets
  import opened SendBuffers
  import opened ReceiveBuffers
  import opened Congestion
  import opened Sending
  import opened Connections
  import opened Invariants
  import opened Writers
  import opened Protocol
  import opened Theorems

  /** None of the packets is acked. */
  predicate Unacked(ps: seq<SentPacket>) {
    forall k :: 0 <= k < |ps| ==> !ps[k].Acked()
  }

  lemma {:induction false} NoneCounted(ps: seq<SentPacket>)
    requires Unacked(ps)
    ensures CountAcked(ps) == 0
  {
    if ps != [] {
      NoneCounted(ps[1..]);
    }
  }

  /** Then none is lost. */
  lemma NoneLost(s: SentState)
    requires s.Valid() && Unacked(s.packets)
    ensures s.lost == {} && s.LastAckNum() == None
  {
    forall q | q in s.lost ensures false {
      NoneCounted(s.packets[Index(s.init, q) + 1..]);
    }
  }

  /** A connection on which nothing has been acked. */
  ghost predicate Unanswered(c: Conn) {
    c.Valid() && c.stateType == Connected && Unacked(c.bufs.value.sent.packets)
  }

  // ---------------------------------------------------------------- writing

  /** A write to an idle connection goes to the send buffer. */
  lemma SubmitTurn(c: Conn, id: nat, data: seq<u8>, clock: Clock, wire: seq<Packet>)
    requires c.Valid() && c.stateType == Connected && c.closing.None? && Idle(c) && 0 < |data| <= c.bufs.value.send.size
    ensures CanAct(c, Submit(id, data), false, clock, wire)
    ensures var send := c.bufs.value.send.(pending := [data]);
            Act(c, Submit(id, data), false, clock, wire) ==
            c.(bufs := Some(c.bufs.value.(send := send)), results := c.results + [Written(id, |data|)],
               accepted := c.accepted + [QueuedWrite(id, data, 0)], drafts := c.drafts + [QueuedWrite(id, data, 0)])
  {
    var w := QueuedWrite(id, data, 0);
    var c0 := c.Enqueue(id, data);
    var send := c.bufs.value.send;
    assert c0.pendingWrites == [w];
    EmptyComposes(send, Min(c0.bufs.value.sent.Window(), c0.peerRecvWindow), c0.MaxData());
    assert Join(send.pending) == [];
    RefillWhole(send, [w], c0.results);
    assert [w][1..] == [];
    assert send.Write(data) == send.(pending := [data]);
  }

  /** One payload that fits. */
  lemma ComposesOne(send: SendState, window: nat, maxData: nat)
    requires send.Valid() && |send.pending| == 1 && send.offset == 0 && 0 < |send.pending[0]| <= Min(window, maxData)
    ensures Compose(send, window, maxData) == Composed([send.pending[0]], send.(pending := []))
  {
    var cap := Min(window, maxData);
    assert send.Front(cap) == send.pending[0];
    assert send.Read(cap) == send.(pending := []);
    ComposeStep(send, window, maxData);
    EmptyComposes(send.Read(cap), window - |send.pending[0]|, maxData);
    assert [send.pending[0]] + [] == [send.pending[0]];
  }

  /** One payload in the send buffer, which fits both windows. */
  ghost predicate Flushable(c: Conn, data: seq<u8>) {
    && c.Valid() && c.stateType == Connected && c.pendingWrites == []
    && c.bufs.value.send.pending == [data] && c.bufs.value.send.offset == 0
    && 0 < |data| <= Min(Min(c.bufs.value.sent.Window(), c.peerRecvWindow), c.MaxData())
    && |c.bufs.value.sent.packets| < MAX_PACKETS
  }

  lemma SendsOne(c: Conn, data: seq<u8>, clock: Clock)
    requires c.Valid() && c.bufs.Some? && |c.bufs.value.sent.packets| < MAX_PACKETS
    requires c.bufs.value.sent.ctrl.window + |data| <= c.bufs.value.sent.ctrl.maxWindow
    ensures |Join([data])| == |data|
    ensures var next := c.bufs.value.sent.NextSeqNum(); var p := c.Stamped(Data, next, c.TsDiff(), data, clock);
            c.CanTransmit(p) && c.SendAll([data], next, clock) == c.Transmit(p, clock)
  {
    JoinCons(data, []);
    assert [data] + [] == [data] && [data][1..] == [];
    SendFits(c, [data], clock);
  }

  lemma ProcessesOne(c: Conn, data: seq<u8>, clock: Clock)
    requires Flushable(c, data)
    ensures c.HasNumbers()
    ensures var next := c.bufs.value.sent.NextSeqNum();
            var c0 := c.(bufs := Some(c.bufs.value.(send := c.bufs.value.send.(pending := []))));
            && c0.Valid() && c0.bufs.value.sent.ctrl.window + |Join([data])| <= c0.bufs.value.sent.ctrl.maxWindow
            && c.ProcessWrites(clock) == c0.SendAll([data], next, clock)
  {
    ComposesOne(c.bufs.value.send, Min(c.bufs.value.sent.Window(), c.peerRecvWindow), c.MaxData());
    assert c.NextPayloads().payloads == [data];
    PayloadsFit(c);
    var empty := c.bufs.value.send.(pending := []);
    assert Refill(empty, [], c.results) == Refilled(empty, [], c.results);
  }

  /** A payload in the send buffer is sent. */
  lemma FlushTurn(c: Conn, data: seq<u8>, clock: Clock, wire: seq<Packet>)
    requires Flushable(c, data)
    ensures CanAct(c, Flush, false, clock, wire)
    ensures var p := c.Stamped(Data, c.bufs.value.sent.NextSeqNum(), c.TsDiff(), data, clock);
            var c0 := c.(bufs := Some(c.bufs.value.(send := c.bufs.value.send.(pending := []))));
            c0.CanTransmit(p) && Act(c, Flush, false, clock, wire) == c0.Transmit(p, clock)
  {
    ProcessesOne(c, data, clock);
    SendsOne(c.(bufs := Some(c.bufs.value.(send := c.bufs.value.send.(pending := [])))), data, clock);
  }

  /** A shutdown of an idle connection sends the FIN. */
  lemma ShutdownTurn(c: Conn, clock: Clock, wire: seq<Packet>)
    requires c.Valid() && c.stateType == Connected && c.closing.None? && Idle(c)
    requires |c.bufs.value.sent.packets| < MAX_PACKETS
    requires c.bufs.value.sent.ctrl.window <= c.bufs.value.sent.ctrl.maxWindow
    ensures CanAct(c, Ask, true, clock, wire)
    ensures var fin := c.bufs.value.sent.NextSeqNum(); var p := c.Stamped(Fin, fin, 0, [], clock);
            var c0 := c.(closing := Some(Closing(Some(fin), None)));
            c0.CanTransmit(p) && Act(c, Ask, true, clock, wire) == c0.Transmit(p, clock)
  {
    FinFits(c, clock);
  }

  // ---------------------------------------------------------------- arrivals

  /** An ack of the number before the first changes nothing. */
  lemma FirstAckIsNothing(c: Conn, sack: Option<SelectiveAck>, delay: int, clock: Clock)
    requires c.Valid() && c.stateType == Connected
    ensures c.ProcessAck(c.bufs.value.sent.init, sack, delay, clock) == c
  {
    OnAckEffect(c.bufs.value.sent, c.bufs.value.sent.init, sack, delay, clock);
  }

  /** Nothing lost is repeated, and with something unacked, or no FIN of the peer, nothing ends. */
  lemma PlainAnswer(c: Conn, g: Packet, clock: Clock)
    requires Unanswered(c) && (g.header.ptype == Data || g.header.ptype == Fin)
    requires c.RemoteFin().None? || (c.LocalFin().None? && c.bufs.value.sent.packets != [])
    ensures c.CanRetransmit() && c.Answer(g, clock) == c.Emit(c.StatePacket(clock).value)
  {
    NoneLost(c.bufs.value.sent);
  }

  /** A payload within the room of the receiver. */
  ghost predicate Storable(c: Conn, g: Packet) {
    && Unanswered(c) && c.RemoteFin().None? && g.header.ackNum == c.bufs.value.sent.init
    && |g.body| <= c.bufs.value.recv.Available()
  }

  lemma DataStored(c: Conn, g: Packet, clock: Clock)
    requires Storable(c, g) && g.header.ptype == Data && g.body != []
    ensures var c0 := c.Observe(g, clock).Receive(g.header.seqNum, g.body);
            && c0.Valid() && CanHandle(c, g, clock) && c.OnPacket(g, clock) == c0.Emit(c0.StatePacket(clock).value)
  {
    var c0 := c.Observe(g, clock).Receive(g.header.seqNum, g.body);
    ReceiveIsValid(c.Observe(g, clock), g.header.seqNum, g.body);
    FirstAckIsNothing(c0, g.eack, g.header.tsDiff * 1000, clock);
    assert c.Handled(g, clock) == c0;
    PlainAnswer(c0, g, clock);
  }

  lemma FinStored(c: Conn, g: Packet, clock: Clock)
    requires Storable(c, g) && g.header.ptype == Fin && c.closing.None? && c.bufs.value.sent.packets != []
    ensures var noted := Some(Closing(None, Some(g.header.seqNum)));
            var c0 := c.Observe(g, clock).Receive(g.header.seqNum, g.body).(closing := noted);
            && c0.Valid() && CanHandle(c, g, clock) && c.OnPacket(g, clock) == c0.Emit(c0.StatePacket(clock).value)
  {
    var noted := Some(Closing(None, Some(g.header.seqNum)));
    var c0 := c.Observe(g, clock).Receive(g.header.seqNum, g.body).(closing := noted);
    ReceiveIsValid(c.Observe(g, clock), g.header.seqNum, g.body);
    FirstAckIsNothing(c0, g.eack, g.header.tsDiff * 1000, clock);
    assert c.Handled(g, clock) == c0;
    PlainAnswer(c0, g, clock);
  }

  /** The only packet is acked: nothing is left, and the window grows. */
  lemma OnlyAcked(s: SentState, delay: int, clock: Clock)
    requires s.Valid() && |s.packets| == 1 && Unacked(s.packets) && s.packets[0].data != []
    requires s.ctrl.samples == [] && s.ctrl.gain == 1.0 && s.ctrl.target > 0 && s.ctrl.delayWindow >= 0
    requires clock.wall <= clock.now && s.ctrl.maxWindow + s.ctrl.maxInc < 0x1_0000_0000
    ensures var (t, error) := s.OnAck(Number(s.init, 0), None, delay, clock);
            && error != Some(InvalidAckNum) && t.Valid() && t.init == s.init && |t.packets| == 1 && t.lost == {}
            && t.ctrl.window == 0 && t.ctrl.maxWindow == s.ctrl.maxWindow + s.ctrl.maxInc
            && SameSettings(s.ctrl, t.ctrl)
            && t.ctrl.tx == s.ctrl.tx[Number(s.init, 0) := s.ctrl.tx[Number(s.init, 0)].(acked := true)]
  {
    var q := Number(s.init, 0);
    IndexOfNumber(s.init, 0);
    OnAckEffect(s, q, None, delay, clock);
    OnlyInFlight(s);
    WindowGrows(s.ctrl, q, Ack(delay, s.packets[0].Rtt(clock.now), clock.now, clock.wall));
    OnlyNamed(s, delay, clock);
  }

  /** The STATE that brings this ack changes nothing else. */
  lemma OnlyAckTaken(c: Conn, g: Packet, t: SentState, clock: Clock)
    requires c.Valid() && c.stateType == Connected && c.closing.None? && g.header.ptype == State
    requires t.Valid() && t.lost == {}
    requires var (s, error) := c.bufs.value.sent.OnAck(g.header.ackNum, g.eack, g.header.tsDiff * 1000, clock);
             t == s && error != Some(InvalidAckNum)
    ensures CanHandle(c, g, clock)
    ensures c.OnPacket(g, clock) == c.Observe(g, clock).(bufs := Some(c.bufs.value.(sent := t)))
  {
    assert c.Handled(g, clock) == c.Observe(g, clock).(bufs := Some(c.bufs.value.(sent := t)));
  }

  lemma OnlyInFlight(s: SentState)
    requires s.Valid() && |s.packets| == 1 && Unacked(s.packets)
    ensures var q := Number(s.init, 0);
            q in s.ctrl.tx && !s.ctrl.tx[q].acked && s.ctrl.tx[q].size == s.ctrl.window == |s.packets[0].data|
  {
    FlightIsUnacked(s.init, s.packets, s.ctrl.tx);
    IndexOfNumber(s.init, 0);
    assert Matches(s.ctrl.tx[Number(s.init, 0)], s.packets[0]);
    assert s.packets[..0] == [];
  }

  /** An ack of it settles it and nothing else. */
  lemma OnlyNamed(s: SentState, delay: int, clock: Clock)
    requires s.Valid() && |s.packets| == 1 && Unacked(s.packets)
    ensures var q := Number(s.init, 0); var t := s.OnAck(q, None, delay, clock).0;
            && t.ctrl == s.ctrl.OnAck(q, Ack(delay, s.packets[0].Rtt(clock.now), clock.now, clock.wall)).ctrl
            && t.lost == {}
  {
    var q := Number(s.init, 0);
    IndexOfNumber(s.init, 0);
    InRangeIsSent(s, q);
    NoneLost(s);
    assert s.Named(q, None) == [q];
    var t := s.AckOne(q, delay, clock);
    AckKeeps(s.ctrl, q, Ack(delay, s.packets[0].Rtt(clock.now), clock.now, clock.wall));
    assert [q][1..] == [];
    assert s.AckAll([q], delay, clock) == t;
    assert t.packets[0].Acked();
  }

  /** Five packets were sent, the last of them the FIN; an ack of the second, and a bitmap that names the last two. */
  ghost predicate NamesLastTwo(c: Conn, g: Packet) {
    && Unanswered(c) && |c.bufs.value.sent.packets| == 5 && c.RemoteFin().None?
    && c.LocalFin() == Some(Number(c.bufs.value.sent.init, 4))
    && g.header.ptype == Data && g.body != [] && |g.body| <= c.bufs.value.recv.Available()
    && g.header.ackNum == Number(c.bufs.value.sent.init, 1) && g.eack.Some? && NamesTwo(g.eack.value)
  }

  predicate NamesTwo(s: SelectiveAck) {
    |s.Acked()| >= 2 && s.Acked()[0] && s.Acked()[1]
  }

  lemma {:induction false} CountAtMost(ps: seq<SentPacket>)
    ensures CountAcked(ps) <= |ps|
  {
    if ps != [] {
      CountAtMost(ps[1..]);
    }
  }

  /** All of five packets but the third are acked. */
  predicate ThirdMissing(ps: seq<SentPacket>) {
    |ps| == 5 && ps[0].Acked() && ps[1].Acked() && !ps[2].Acked() && ps[3].Acked() && ps[4].Acked()
  }

  /** Two acked packets behind it do not make a packet lost. */
  lemma ThirdNotLost(s: SentState)
    requires s.Valid() && ThirdMissing(s.packets)
    ensures s.lost == {} && s.LastAckNum() == Some(Number(s.init, 1))
  {
    forall q | q in s.lost ensures false {
      CountAtMost(s.packets[Index(s.init, q) + 1..]);
    }
    assert Gap(s.packets) == 2;
  }

  lemma NamedTwo(init: u16, a: seq<SentPacket>, b: seq<SentPacket>, sack: SelectiveAck)
    requires |a| == |b| == 5 && Unacked(a) && AckedBy(init, a, b, Number(init, 1), Some(sack)) && NamesTwo(sack)
    ensures ThirdMissing(b)
  {
    IndexOfNumber(init, 1);
    assert Bitmap(sack.Acked(), 4, 3) && Bitmap(sack.Acked(), 4, 4) && !Bitmap(sack.Acked(), 4, 2);
  }

  /** The last two pass for acked. */
  lemma LastTwoAcked(s: SentState, sack: SelectiveAck, delay: int, clock: Clock)
    requires s.Valid() && Unacked(s.packets) && |s.packets| == 5 && NamesTwo(sack)
    ensures var (t, error) := s.OnAck(Number(s.init, 1), Some(sack), delay, clock);
            error != Some(InvalidAckNum) && t.Valid() && t.init == s.init && ThirdMissing(t.packets)
  {
    IndexOfNumber(s.init, 1);
    OnAckEffect(s, Number(s.init, 1), Some(sack), delay, clock);
    NamedTwo(s.init, s.packets, s.OnAck(Number(s.init, 1), Some(sack), delay, clock).0.packets, sack);
  }

  lemma PhantomStored(c: Conn, g: Packet, clock: Clock)
    requires NamesLastTwo(c, g)
    ensures CanHandle(c, g, clock)
    ensures var c1 := c.OnPacket(g, clock);
            && c1.stateType == Connected && c1.closing == c.closing && c1.accepted == c.accepted && c1.bufs.Some?
            && c1.bufs.value.sent.init == c.bufs.value.sent.init && ThirdMissing(c1.bufs.value.sent.packets)
            && c.out <= c1.out
  {
    var c0 := c.Observe(g, clock).Receive(g.header.seqNum, g.body);
    ReceiveIsValid(c.Observe(g, clock), g.header.seqNum, g.body);
    LastTwoAcked(c0.bufs.value.sent, g.eack.value, g.header.tsDiff * 1000, clock);
    var t := c0.bufs.value.sent.OnAck(g.header.ackNum, g.eack, g.header.tsDiff * 1000, clock).0;
    ThirdNotLost(t);
    assert c.Handled(g, clock) == c0.(bufs := Some(c0.bufs.value.(sent := t)));
  }

  lemma NamedThird(init: u16, a: seq<SentPacket>, b: seq<SentPacket>)
    requires ThirdMissing(a) && |b| == 5 && AckedBy(init, a, b, Number(init, 2), None)
    ensures forall k :: 0 <= k < 5 ==> b[k].Acked()
  {
    IndexOfNumber(init, 2);
  }

  lemma NothingUnacked(s: SentState)
    requires s.Valid() && |s.packets| == 5 && forall k :: 0 <= k < 5 ==> s.packets[k].Acked()
    ensures s.lost == {} && s.LastAckNum() == Some(Number(s.init, 4))
  {
    assert Gap(s.packets) == 5;
  }

  /** An ack of the third completes them. */
  lemma ThirdAcked(s: SentState, delay: int, clock: Clock)
    requires s.Valid() && ThirdMissing(s.packets)
    ensures var (t, error) := s.OnAck(Number(s.init, 2), None, delay, clock);
            && error != Some(InvalidAckNum) && t.Valid() && t.lost == {} && t.LastAckNum() == Some(Number(s.init, 4))
            && |t.packets| == 5 && t.packets[3].Acked() && t.init == s.init
  {
    IndexOfNumber(s.init, 2);
    OnAckEffect(s, Number(s.init, 2), None, delay, clock);
    var t := s.OnAck(Number(s.init, 2), None, delay, clock).0;
    NamedThird(s.init, s.packets, t.packets);
    NothingUnacked(t);
  }

  /** So the FIN passes for acked, and the connection ends. */
  lemma PhantomCloses(c: Conn, g: Packet, clock: Clock)
    requires c.Valid() && c.stateType == Connected && c.bufs.Some? && ThirdMissing(c.bufs.value.sent.packets)
    requires c.LocalFin() == Some(Number(c.bufs.value.sent.init, 4))
    requires g.header.ptype == State && g.eack == None && g.header.ackNum == Number(c.bufs.value.sent.init, 2)
    ensures CanHandle(c, g, clock)
    ensures var c1 := c.OnPacket(g, clock);
            && c1.stateType == Closed && c1.err == None && c1.accepted == c.accepted && c1.closing == c.closing
            && c1.bufs.Some? && c1.bufs.value.sent.LastAckNum() == c.LocalFin()
            && |c1.bufs.value.sent.packets| == 5 && c1.bufs.value.sent.packets[3].Acked()
  {
    var c0 := c.Observe(g, clock);
    ThirdAcked(c0.bufs.value.sent, g.header.tsDiff * 1000, clock);
    var t := c0.bufs.value.sent.OnAck(g.header.ackNum, g.eack, g.header.tsDiff * 1000, clock).0;
    assert c.Handled(g, clock) == c0.(bufs := Some(c0.bufs.value.(sent := t)));
  }

  /** With a FIN of our own unacked, the FIN of the peer ends the connection, and the reader is told nothing. */
  lemma SecondFinEnds(c: Conn, g: Packet, clock: Clock)
    requires Unanswered(c) && c.LocalFin().Some? && c.RemoteFin().None? && c.bufs.value.sent.packets != []
    requires g.header.ptype == Fin && g.header.ackNum == c.bufs.value.sent.init
    ensures CanHandle(c, g, clock)
    ensures var c1 := c.OnPacket(g, clock);
            && c1.stateType == Closed && c1.err == None && c1.readOut == c.readOut && c1.bufs.Some?
            && c1.bufs.value.recv == c.bufs.value.recv.Write(g.body, g.header.seqNum)
  {
    var closing := Some(Closing(c.LocalFin(), Some(g.header.seqNum)));
    var c0 := c.Observe(g, clock).(closing := closing).Receive(g.header.seqNum, g.body);
    ReceiveIsValid(c.Observe(g, clock).(closing := closing), g.header.seqNum, g.body);
    FirstAckIsNothing(c0, g.eack, g.header.tsDiff * 1000, clock);
    assert c.Handled(g, clock) == c0;
    NoneLost(c0.bufs.value.sent);
  }

  /** A packet that ends the connection makes the last turn. */
  lemma LastTurn(c: Conn, p: Packet, g: Packet, clock: Clock, wire: seq<Packet>)
    requires c.Valid() && c.stateType != Closed && p in wire && WellFormed(p) && FromWire(p) == Ok(g)
    requires CanHandle(c, g, clock)
    requires c.OnPacket(g, clock).stateType == Closed
    ensures CanAct(c, Arrive(p), false, clock, wire)
    ensures var c1 := c.OnPacket(g, clock);
            Act(c, Arrive(p), false, clock, wire) == c1.(results := c1.results + c1.Failures(c1.pendingWrites))
  {
  }

  /** A packet ahead of its turn waits. */
  lemma WriteAhead(r: RecvState, data: seq<u8>, q: u16)
    requires r.Valid() && r.consumed == 0 && r.pending == map[] && |data| <= r.Available() && Sub(q, r.init) > 1
    ensures r.Write(data, q) == r.(pending := map[q := data])
  {
    WrittenIsWithinReach(r, q);
  }

  /** The next packet is readable at once. */
  lemma WriteNext(r: RecvState, data: seq<u8>)
    requires r.Valid() && r.consumed < 0xFFFF && r.pending == map[] && |data| <= r.Available()
    ensures r.Write(data, Number(r.init, r.consumed)) == r.(consumed := r.consumed + 1, buf := r.buf + data)
  {
    var q := Number(r.init, r.consumed);
    WrittenIsWithinReach(r, q);
    var r1 := r.(pending := map[q := data]);
    assert r1.pending - {q} == map[];
    assert r1.Drain() == r.(consumed := r.consumed + 1, buf := r.buf + data).Drain();
  }

  /** The missing packet makes the one behind it readable too. */
  lemma WriteBoth(r: RecvState, x: seq<u8>, y: seq<u8>)
    requires r.Valid() && r.consumed == 0 && r.pending == map[Add(r.init, 2) := y] && |x| <= r.Available()
    ensures r.Write(x, Add(r.init, 1)) == r.(consumed := 2, buf := (r.buf + x) + y, pending := map[])
  {
    var q1, q2 := Add(r.init, 1), Add(r.init, 2);
    WrittenIsWithinReach(r, q1);
    var r1 := r.(pending := r.pending[q1 := x]);
    var r2 := r.(consumed := 1, buf := r.buf + x);
    assert r1.pending - {q1} == r.pending;
    assert r1.Drain() == r2.Drain();
    assert r2.pending - {q2} == map[];
    assert r2.Drain() == r.(consumed := 2, buf := (r.buf + x) + y, pending := map[]).Drain();
  }

  /** A packet that is handled without closing the connection makes a turn. */
  lemma ArriveTurn(c: Conn, p: Packet, g: Packet, clock: Clock, wire: seq<Packet>)
    requires c.Valid() && c.stateType != Closed && p in wire && WellFormed(p) && FromWire(p) == Ok(g)
    requires CanHandle(c, g, clock)
    requires c.OnPacket(g, clock).stateType != Closed
    ensures CanAct(c, Arrive(p), false, clock, wire)
    ensures Act(c, Arrive(p), false, clock, wire) == c.OnPacket(g, clock)
  {
  }

  // ---------------------------------------------------------------- timeouts and reads

  /** A timer sends its packet again, with the old extension byte and the bitmap of now. */
  lemma ExpireSends(c: Conn, p: Packet, clock: Clock)
    requires c.Valid() && c.stateType == Connected && c.CanResend(p) && p.header.ptype != Syn
    ensures var c1 := c.OnTimeout(p, clock);
            && c1.out == c.out + [c.Renewed(p, clock)] && c1.accepted == c.accepted && c1.closing == c.closing
            && c1.stateType == Connected && c1.bufs.Some? && c1.bufs.value.sent.init == c.bufs.value.sent.init
            && c1.pendingWrites == c.pendingWrites && c1.bufs.value.send == c.bufs.value.send
  {
    SlowedIsValid(c, clock);
    RenewedFits(c.Slowed(clock), p, clock);
  }

  lemma ExpireTurn(c: Conn, p: Packet, clock: Clock, wire: seq<Packet>)
    requires c.Valid() && c.stateType == Connected && p in c.out && (p.header.ptype == Data || p.header.ptype == Fin)
    requires c.Resendable({p.header.seqNum}) && |p.body| < 0x1_0000_0000
    ensures CanAct(c, Protocol.Expire(p), false, clock, wire)
    ensures Act(c, Protocol.Expire(p), false, clock, wire) == c.OnTimeout(p, clock)
  {
    ExpireSends(c, p, clock);
  }

  /** A read hands over all that is readable, and then perhaps the end of the stream. */
  lemma FetchTurn(c: Conn, clock: Clock, wire: seq<Packet>)
    requires c.Valid() && c.stateType == Connected && c.readOut == [] && c.cfg.maxPacketSize > 0
    ensures CanAct(c, Fetch, false, clock, wire)
    ensures var c1 := Act(c, Fetch, false, clock, wire);
            && BytesRead(c1.readOut) == c.bufs.value.recv.buf && (c.AtEof() ==> Eof in c1.readOut)
  {
    DeliverKeepsState(c);
    DeliverReadsAll(c);
    assert [] + c.bufs.value.recv.buf == c.bufs.value.recv.buf;
    if c.AtEof() {
      BytesReadSnoc(c.Deliver().readOut, Eof);
      assert c.bufs.value.recv.buf + [] == c.bufs.value.recv.buf;
    }
  }
}
