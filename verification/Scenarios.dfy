/** Runs that reach what the theorems exclude, from the first SYN on. */
module Scenarios {
  import opened Words
  import opened Collections
  import opened Packets
  import opened SendBuffers
  import opened ReceiveBuffers
  import Congestion
  import opened Sending
  import opened Connections
  import opened Invariants
  import opened Writers
  import opened Trust
  import opened Runs
  import opened Protocol
  import opened Turns
  import opened Limits

  // ---------------------------------------------------------------- building runs

  /** The configuration that the code uses by default. */
  const PLAIN: Config := Config(1024, 6, 60_000_000_000, 4_000_000_000, 500_000_000, 60_000_000_000, 100_000,
                                1_048_576, 1_048_576, 0)

  /** The largest payload, and the congestion window that a connection starts with. */
  const PAYLOAD: nat := 960
  const FIRST: nat := 2048

  /** The first of January 2026, and five seconds later, when a timer of four seconds has fired. */
  const START: Clock := Clock(1_767_225_600_000_000_000, 1_767_225_600_000_000_000, 1_767_225_600_000_000, 0)
  const LATER: Clock := Clock(1_767_225_605_000_000_000, 1_767_225_605_000_000_000, 1_767_225_605_000_000, 0)

  /** The numbers of the handshake. */
  const SYN_NUM: u16 := 100
  const SYN_ACK: u16 := 200

  /** The number before the first packet of an endpoint. */
  function Before(role: Role): u16 {
    if role == Initiator then SYN_NUM else SYN_ACK - 1
  }

  function Last(run: Run): System
    requires run.states != []
  {
    run.states[|run.states| - 1]
  }

  /** A run that has come to a pair of endpoints. */
  ghost predicate Ongoing(run: Run) {
    run.Valid() && Last(run).Joined?
  }

  /** The endpoint of the given role at the end of the run, and its peer. */
  ghost function Me(run: Run, role: Role): Conn
    requires Ongoing(run)
  {
    Protocol.At(Last(run), role)
  }

  ghost function Other(run: Run, role: Role): Conn
    requires Ongoing(run)
  {
    Protocol.Peer(Last(run), role)
  }

  lemma LastIsPair(run: Run)
    requires Ongoing(run)
    ensures Pair(Last(run).a, Last(run).b)
  {
    RunKeeps(run, |run.states| - 1);
  }

  lemma LastIsValid(run: Run)
    requires Ongoing(run)
    ensures Last(run).a.Valid() && Last(run).b.Valid()
  {
    LastIsPair(run);
  }

  lemma Then(run: Run, x: Turn) returns (run1: Run)
    requires run.Valid() && CanStep(Last(run), x)
    ensures run1.Valid() && Last(run1) == Step(Last(run), x)
  {
    run1 := Run(run.states + [Step(Last(run), x)], run.turns + [x]);
    TracesOn(run.states, run.turns, Moves, x, Step(Last(run), x));
  }

  /** The endpoint of the given role takes a turn. */
  lemma Do(run: Run, role: Role, e: Event, shutdown: bool, clock: Clock) returns (run1: Run)
    requires Ongoing(run) && CanAct(Me(run, role), e, shutdown, clock, Other(run, role).out)
    ensures Ongoing(run1) && Other(run1, role) == Other(run, role)
    ensures Me(run1, role) == Act(Me(run, role), e, shutdown, clock, Other(run, role).out)
  {
    run1 := Then(run, if role == Initiator then AtInitiator(e, shutdown, clock) else AtAcceptor(e, shutdown, clock));
  }

  // ---------------------------------------------------------------- the handshake

  /** Nothing received yet. */
  function Empty(init: u16): RecvState {
    RecvState(PLAIN.bufferSize, init, 0, [], map[])
  }

  /** Every packet was sent once. */
  predicate Once(tx: map<u16, Congestion.Record>) {
    forall q :: q in tx ==> tx[q].num == 1
  }

  /** So many packets and bytes are out, and the window is `limit`; nothing is acked as long as it is the first one. */
  predicate Sender(s: SentState, init: u16, n: nat, bytes: nat, limit: nat) {
    && s.init == init && |s.packets| == n && Once(s.ctrl.tx)
    && s.ctrl.window == bytes && s.ctrl.maxWindow == limit && Default(s.ctrl)
    && (limit == FIRST ==> Unacked(s.packets) && s.ctrl.samples == [])
  }

  predicate Default(c: Congestion.Ctrl) {
    c.minWindow == FIRST && c.maxInc == 1024 && c.gain == 1.0 && c.target == 100_000 && c.delayWindow == 120_000_000_000
  }

  /** An open and idle connection that has sent n packets, with so many bytes of them in flight. */
  predicate Grown(c: Conn, init: u16, n: nat, bytes: nat, limit: nat) {
    && c.stateType == Connected && c.cfg == PLAIN && c.closing.None? && c.pendingWrites == [] && c.readOut == []
    && c.peerRecvWindow >= 2000 && c.bufs.Some? && c.latestTimeout.None?
    && c.bufs.value.send == SendState(PLAIN.bufferSize, [], 0) && Sender(c.bufs.value.sent, init, n, bytes, limit)
  }

  /** Likewise, with none of its packets acked. */
  predicate Open(c: Conn, init: u16, n: nat, bytes: nat) {
    Grown(c, init, n, bytes, FIRST)
  }

  lemma Connects(c: Conn, g: Packet, clock: Clock)
    requires c.Valid() && c.stateType == Connecting && c.endpoint.role == Initiator && c.closing.None?
    requires g.header.ptype == State && g.header.ackNum == c.endpoint.synNum
    ensures CanHandle(c, g, clock)
    ensures c.OnPacket(g, clock) == c.Observe(g, clock).(stateType := Connected,
                                      bufs := Some(FreshBuffers(c.cfg, Sub(g.header.seqNum, 1), c.endpoint.synNum)))
  {
    var c1 := c.Observe(g, clock).OnState(g.header.seqNum, g.header.ackNum);
    FreshIsValid(c.cfg, Sub(g.header.seqNum, 1), c.endpoint.synNum);
    FirstAckIsNothing(c1, g.eack, g.header.tsDiff * 1000, clock);
    assert c.Handled(g, clock) == c1;
    assert c1.bufs.value.sent.lost == {};
  }

  lemma Dialed() returns (run: Run)
    ensures run.Valid() && Last(run) == Dialing(Dial(PLAIN, 2, 1, SYN_NUM, START))
  {
    run := Run([Dialing(Dial(PLAIN, 2, 1, SYN_NUM, START))], []);
  }

  lemma Greeted() returns (run: Run)
    ensures Ongoing(run)
    ensures var a := Dial(PLAIN, 2, 1, SYN_NUM, START);
            Last(run) == Joined(a, Accept(PLAIN, 1, 2, OnWire(a.out[0]), SYN_ACK, START))
  {
    run := Dialed();
    var a := Dial(PLAIN, 2, 1, SYN_NUM, START);
    assert a.out[0] in a.out;
    run := Then(run, Greet(PLAIN, 1, 2, a.out[0], SYN_ACK, START));
  }

  lemma FreshIsOpen(c: Conn, recvInit: u16, sendInit: u16)
    requires c.stateType == Connected && c.cfg == PLAIN && c.closing.None? && c.pendingWrites == [] && c.readOut == []
    requires c.peerRecvWindow >= 2000 && c.latestTimeout.None?
    requires c.bufs == Some(FreshBuffers(PLAIN, recvInit, sendInit))
    ensures Open(c, sendInit, 0, 0) && c.bufs.value.recv == Empty(recvInit)
  {
  }

  /** The acceptor answers the SYN with a STATE that survives the wire and connects the initiator. */
  lemma StateConnects(a: Conn, b: Conn)
    requires a == Dial(PLAIN, 2, 1, SYN_NUM, START) && b == Accept(PLAIN, 1, 2, OnWire(a.out[0]), SYN_ACK, START)
    requires Pair(a, b)
    ensures CanAct(a, Arrive(b.out[0]), false, START, b.out)
    ensures var a1 := Act(a, Arrive(b.out[0]), false, START, b.out);
            && Open(a1, Before(Initiator), 0, 0) && a1.bufs.value.recv == Empty(Before(Acceptor))
            && a1.accepted == [] && a1.drafts == [] && a1.results == []
  {
    var p := b.out[0];
    assert p in b.out;
    assert Genuine(b.endpoint, b.bufs, p);
    PacketRoundTrip(p);
    Connects(a, OnWire(p), START);
    ArriveTurn(a, p, OnWire(p), START, b.out);
    FreshIsOpen(a.OnPacket(OnWire(p), START), Before(Acceptor), Before(Initiator));
  }

  lemma Met() returns (run: Run)
    ensures Ongoing(run)
    ensures var s := Last(run);
            && Open(s.a, Before(Initiator), 0, 0) && s.a.bufs.value.recv == Empty(Before(Acceptor))
            && s.a.accepted == [] && s.a.drafts == [] && s.a.results == []
            && Open(s.b, Before(Acceptor), 0, 0) && s.b.bufs.value.recv == Empty(Before(Initiator))
            && s.b.accepted == []
  {
    run := Greeted();
    LastIsPair(run);
    var a, b := Last(run).a, Last(run).b;
    StateConnects(a, b);
    FreshIsOpen(b, Before(Initiator), Before(Acceptor));
    run := Do(run, Initiator, Arrive(b.out[0]), false, START);
  }

  // ---------------------------------------------------------------- sending

  /** A packet without a bitmap, and with an extension byte that says so. */
  predicate Bare(p: Packet, ptype: PacketType, seqNum: u16, ackNum: u16, body: seq<u8>) {
    p.header.ptype == ptype && p.header.seqNum == seqNum && p.header.ackNum == ackNum && p.body == body
    && p.header.extension == 0 && p.eack == None && p.header.wnd >= 2000
  }

  lemma SentOnceMore(s: SentState, init: u16, n: nat, bytes: nat, limit: nat, ptype: PacketType, data: seq<u8>,
                     now: int)
    requires s.Valid() && Sender(s, init, n, bytes, limit) && n < 10 && bytes + |data| <= limit
    ensures s.NextSeqNum() == Number(init, n) && s.CanTransmit(s.NextSeqNum(), |data|)
    ensures Sender(s.OnTransmit(s.NextSeqNum(), ptype, data, now), init, n + 1, bytes + |data|, limit)
  {
    NextNumber(s);
    FreshTransmission(s, ptype, data, now);
  }

  /** An endpoint that takes a write sends it in the same turn or the next one. */
  predicate Wrote(c: Conn, c1: Conn, p: Packet, id: nat, data: seq<u8>) {
    && c1.bufs.Some? && c.bufs.Some? && c1.bufs.value.recv == c.bufs.value.recv && c1.out == c.out + [p]
    && c1.accepted == c.accepted + [QueuedWrite(id, data, 0)]
  }

  /** The packet that carries the next payload. */
  ghost function NextData(c: Conn, data: seq<u8>): Packet
    requires c.bufs.Some?
  {
    c.Stamped(Data, c.bufs.value.sent.NextSeqNum(), c.TsDiff(), data, START)
  }

  lemma WriteTurns(c: Conn, init: u16, n: nat, bytes: nat, limit: nat, id: nat, data: seq<u8>, wire: seq<Packet>)
    requires c.Valid() && Grown(c, init, n, bytes, limit) && n < 10 && 0 < |data| <= PAYLOAD && bytes + |data| <= limit
    ensures CanAct(c, Submit(id, data), false, START, wire)
    ensures var c0 := Act(c, Submit(id, data), false, START, wire);
            && CanAct(c0, Flush, false, START, wire)
            && var c1 := Act(c0, Flush, false, START, wire);
               Wrote(c, c1, NextData(c, data), id, data) && Grown(c1, init, n + 1, bytes + |data|, limit)
  {
    SubmitTurn(c, id, data, START, wire);
    var c0 := Act(c, Submit(id, data), false, START, wire);
    SentOnceMore(c.bufs.value.sent, init, n, bytes, limit, Data, data, START.now);
    assert Flushable(c0, data);
    FlushTurn(c0, data, START, wire);
  }

  lemma Writes(run: Run, role: Role, n: nat, bytes: nat, limit: nat, id: nat, data: seq<u8>) returns (run1: Run)
    requires Ongoing(run) && Grown(Me(run, role), Before(role), n, bytes, limit)
    requires n < 10 && 0 < |data| <= PAYLOAD && bytes + |data| <= limit
    ensures Ongoing(run1) && Other(run1, role) == Other(run, role)
    ensures var c, c1 := Me(run, role), Me(run1, role);
            Wrote(c, c1, NextData(c, data), id, data) && Grown(c1, Before(role), n + 1, bytes + |data|, limit)
  {
    LastIsValid(run);
    WriteTurns(Me(run, role), Before(role), n, bytes, limit, id, data, Other(run, role).out);
    run1 := Do(run, role, Submit(id, data), false, START);
    run1 := Do(run1, role, Flush, false, START);
  }

  lemma NextDataIsBare(c: Conn, init: u16, n: nat, data: seq<u8>, ackNum: u16)
    requires c.Valid() && c.bufs.Some? && c.bufs.value.sent.init == init && |c.bufs.value.sent.packets| == n < 10
    requires c.bufs.value.recv == Empty(ackNum)
    ensures Bare(NextData(c, data), Data, Number(init, n), ackNum, data)
  {
    NextNumber(c.bufs.value.sent);
  }

  /** An endpoint that has received nothing sends a bare packet. */
  lemma Sends(run: Run, role: Role, n: nat, bytes: nat, id: nat, data: seq<u8>, ackNum: u16) returns (run1: Run,
              p: Packet)
    requires Ongoing(run) && Open(Me(run, role), Before(role), n, bytes)
    requires Me(run, role).bufs.value.recv == Empty(ackNum)
    requires n < 10 && 0 < |data| <= PAYLOAD && bytes + |data| <= FIRST
    ensures Ongoing(run1) && Other(run1, role) == Other(run, role)
    ensures var c, c1 := Me(run, role), Me(run1, role);
            && Wrote(c, c1, p, id, data) && Open(c1, Before(role), n + 1, bytes + |data|)
            && Bare(p, Data, Number(Before(role), n), ackNum, data) && p in c1.out
  {
    LastIsValid(run);
    p := NextData(Me(run, role), data);
    NextDataIsBare(Me(run, role), Before(role), n, data, ackNum);
    run1 := Writes(run, role, n, bytes, FIRST, id, data);
  }

  /** The acceptor has sent two packets. */
  lemma TwoSent() returns (run: Run, p1: Packet, p2: Packet)
    ensures Ongoing(run)
    ensures var s := Last(run);
            && Open(s.a, Before(Initiator), 0, 0) && s.a.bufs.value.recv == Empty(Before(Acceptor))
            && s.a.accepted == []
            && Open(s.b, Before(Acceptor), 2, 2) && s.b.bufs.value.recv == Empty(Before(Initiator))
            && p1 in s.b.out && Bare(p1, Data, SYN_ACK, SYN_NUM, [1]) && p2 in s.b.out
            && Bare(p2, Data, SYN_ACK + 1, SYN_NUM, [2])
  {
    run := Met();
    run, p1 := Sends(run, Acceptor, 0, 0, 1, [1], SYN_NUM);
    run, p2 := Sends(run, Acceptor, 1, 1, 2, [2], SYN_NUM);
  }

  // ---------------------------------------------------------------- receiving

  /** All that changes is what is received, what is sent and what is known of the peer. */
  predicate Received(c: Conn, c1: Conn, recv: RecvState) {
    && c.bufs.Some? && c1.bufs == Some(c.bufs.value.(recv := recv)) && c.out <= c1.out
    && c1 == c.(bufs := c1.bufs, out := c1.out, peerRecvWindow := c1.peerRecvWindow, peerTsDiff := c1.peerTsDiff)
  }

  /** The packet acks what has been received. */
  ghost predicate Acks(p: Packet, recv: RecvState) {
    && p.header.ptype == State && p.header.ackNum == recv.AckNum() && p.eack == recv.SelectiveAck()
    && ExtensionAgrees(p) && p.header.wnd == Wrap32(recv.Available())
  }

  lemma Takes(run: Run, role: Role, p: Packet, g: Packet, clock: Clock) returns (run1: Run)
    requires Ongoing(run) && p in Other(run, role).out && WellFormed(p) && FromWire(p) == Ok(g)
    requires Storable(Me(run, role), g) && g.header.ptype == Data && g.body != []
    ensures Ongoing(run1) && Other(run1, role) == Other(run, role)
    ensures var c, c1 := Me(run, role), Me(run1, role);
            && Received(c, c1, c.bufs.value.recv.Write(g.body, g.header.seqNum)) && c1.peerRecvWindow == g.header.wnd
            && |c1.out| == |c.out| + 1 && Acks(c1.out[|c.out|], c1.bufs.value.recv)
  {
    var c := Me(run, role);
    DataStored(c, g, clock);
    ArriveTurn(c, p, g, clock, Other(run, role).out);
    run1 := Do(run, role, Arrive(p), false, clock);
  }

  /** A bare packet of the peer survives the wire. */
  lemma BareComes(run: Run, role: Role, p: Packet, ptype: PacketType, seqNum: u16, ackNum: u16, body: seq<u8>)
    requires Ongoing(run) && p in Other(run, role).out && Bare(p, ptype, seqNum, ackNum, body)
    requires ptype == Data ==> body != []
    ensures WellFormed(p) && FromWire(p) == Ok(OnWire(p))
  {
    LastIsPair(run);
    var d := Other(run, role);
    assert Genuine(d.endpoint, d.bufs, p);
    PacketRoundTrip(p);
  }

  /** What the initiator has received when the second packet came before the first. */
  function Gapped(): RecvState {
    Empty(SYN_ACK - 1).(pending := map[SYN_ACK + 1 := [2]])
  }

  lemma GapHolds()
    ensures Gapped().pending != map[] && Gapped().Valid() && Gapped().Available() >= 9_000
  {
    var empty: map<u16, seq<u8>> := map[];
    MapSumUpdate(empty, Length, SYN_ACK + 1, [2]);
    assert empty[SYN_ACK + 1 := [2]] == Gapped().pending;
    assert SYN_ACK + 1 in Gapped().pending;
  }

  /** The first packet fills the gap. */
  lemma GapCloses()
    ensures Gapped().Valid()
    ensures var r := Gapped().Write([1], SYN_ACK);
            r.size == 1_048_576 && r.init == SYN_ACK - 1 && r.consumed == 2 && |r.buf| == 2 && r.pending == map[]
  {
    GapHolds();
    WriteBoth(Gapped(), [1], [2]);
  }

  /** The second packet of the acceptor comes to the initiator before the first. */
  lemma TakesAhead(run: Run, p2: Packet) returns (run1: Run)
    requires Ongoing(run) && p2 in Last(run).b.out && Bare(p2, Data, SYN_ACK + 1, SYN_NUM, [2])
    requires Unanswered(Last(run).a) && Last(run).a.RemoteFin().None? && Last(run).a.bufs.value.sent.init == SYN_NUM
    requires Last(run).a.bufs.value.recv == Empty(SYN_ACK - 1)
    ensures Ongoing(run1) && Last(run1).b == Last(run).b
    ensures Received(Last(run).a, Last(run1).a, Gapped())
    ensures Last(run1).a.peerRecvWindow >= 2000
  {
    BareComes(run, Initiator, p2, Data, SYN_ACK + 1, SYN_NUM, [2]);
    WriteAhead(Empty(SYN_ACK - 1), [2], SYN_ACK + 1);
    run1 := Takes(run, Initiator, p2, OnWire(p2), START);
  }

  // ---------------------------------------------------------------- a bitmap among the bytes

  /**
   * The initiator has sent its first packet, without a bitmap, and holds data ahead of its turn now, so that the packet
   * will have a bitmap when it is sent again. The acceptor has received nothing.
   */
  predicate Poised(s: System, p: Packet, ptype: PacketType, body: seq<u8>) {
    && s.Joined? && s.a.stateType == Connected && s.a.bufs.Some? && Once(s.a.bufs.value.sent.ctrl.tx)
    && p in s.a.out && Bare(p, ptype, SYN_NUM + 1, SYN_ACK - 1, body) && |body| <= PAYLOAD
    && s.a.bufs.value.sent.init == SYN_NUM && |s.a.bufs.value.sent.packets| == 1
    && s.a.bufs.value.recv.pending != map[] && s.a.bufs.value.recv.AckNum() == SYN_ACK - 1
    && Open(s.b, SYN_ACK - 1, 2, 2) && s.b.bufs.value.recv == Empty(SYN_NUM)
  }

  lemma PoisedWithData(data: seq<u8>) returns (run: Run, p: Packet)
    requires 0 < |data| <= PAYLOAD
    ensures Ongoing(run) && Poised(Last(run), p, Data, data) && Last(run).a.accepted == [QueuedWrite(3, data, 0)]
  {
    var p1, p2;
    run, p1, p2 := TwoSent();
    run, p := Sends(run, Initiator, 0, 0, 3, data, SYN_ACK - 1);
    LastIsValid(run);
    run := TakesAhead(run, p2);
    GapHolds();
  }

  /** An endpoint that has received nothing and has sent n packets sends its FIN. */
  lemma ShutdownSends(c: Conn, init: u16, n: nat, bytes: nat, ackNum: u16, wire: seq<Packet>) returns (p: Packet)
    requires c.Valid() && Open(c, init, n, bytes) && n < 10 && bytes <= FIRST && c.bufs.value.recv == Empty(ackNum)
    ensures CanAct(c, Ask, true, START, wire) && Bare(p, Fin, Number(init, n), ackNum, [])
    ensures var c1 := Act(c, Ask, true, START, wire);
            && c1.bufs.Some? && Sender(c1.bufs.value.sent, init, n + 1, bytes, FIRST)
            && c1 == c.(bufs := Some(c.bufs.value.(sent := c1.bufs.value.sent)), out := c.out + [p],
                        closing := Some(Closing(Some(Number(init, n)), None)))
  {
    ShutdownTurn(c, START, wire);
    SentOnceMore(c.bufs.value.sent, init, n, bytes, FIRST, Fin, [], START.now);
    p := c.Stamped(Fin, Number(init, n), 0, [], START);
  }

  lemma ShutsDown(run: Run, role: Role, n: nat, bytes: nat, ackNum: u16) returns (run1: Run, p: Packet)
    requires Ongoing(run) && Open(Me(run, role), Before(role), n, bytes) && n < 10 && bytes <= FIRST
    requires Me(run, role).bufs.value.recv == Empty(ackNum)
    ensures Ongoing(run1) && Other(run1, role) == Other(run, role)
    ensures var c, c1 := Me(run, role), Me(run1, role);
            && c1.stateType == Connected && c1.closing == Some(Closing(Some(Number(Before(role), n)), None))
            && c1.bufs.Some?
            && c1.bufs.value.recv == c.bufs.value.recv && Sender(c1.bufs.value.sent, Before(role), n + 1, bytes, FIRST)
            && p in c1.out && c.out <= c1.out && Bare(p, Fin, Number(Before(role), n), ackNum, [])
            && c1.accepted == c.accepted && c1.readOut == []
  {
    LastIsValid(run);
    p := ShutdownSends(Me(run, role), Before(role), n, bytes, ackNum, Other(run, role).out);
    run1 := Do(run, role, Ask, true, START);
  }

  lemma PoisedWithFin() returns (run: Run, p: Packet)
    ensures Ongoing(run) && Poised(Last(run), p, Fin, []) && Last(run).a.accepted == []
  {
    var p1, p2;
    run, p1, p2 := TwoSent();
    run, p := ShutsDown(run, Initiator, 0, 0, SYN_ACK - 1);
    LastIsValid(run);
    run := TakesAhead(run, p2);
    GapHolds();
  }

  /** What the wire makes of a packet with a bitmap that it does not announce. */
  ghost function Mixed(r: Packet): Packet
    requires WellFormed(r)
  {
    OnWire(r).(eack := None, body := EackBytes(r.eack) + r.body)
  }

  /** What a packet becomes when it is sent again under a bitmap that it does not announce. */
  predicate Renewal(r: Packet, p: Packet, ackNum: u16) {
    && r.header.ptype == p.header.ptype && r.header.seqNum == p.header.seqNum
    && r.header.extension == p.header.extension
    && r.header.ackNum == ackNum && r.body == p.body
  }

  /** A packet is sent again, and nothing else happens. */
  predicate SameButTimes(c: Conn, c1: Conn) {
    && c1.stateType == c.stateType && c1.closing == c.closing && c1.readOut == c.readOut && c.bufs.Some?
    && c1.bufs.Some?
    && c1.bufs.value.sent.init == c.bufs.value.sent.init
    && (Unacked(c.bufs.value.sent.packets) ==> Unacked(c1.bufs.value.sent.packets))
  }

  /** The timer can fire for packet p. */
  ghost predicate Renewable(c: Conn, p: Packet) {
    && c.Valid() && p in c.out && (p.header.ptype == Data || p.header.ptype == Fin) && |p.body| <= PAYLOAD
    && c.stateType == Connected && Once(c.bufs.value.sent.ctrl.tx)
    && Index(c.bufs.value.sent.init, p.header.seqNum) < |c.bufs.value.sent.packets|
  }

  /** From c to c1, packet p has been sent again as r. */
  ghost predicate Resent(c: Conn, c1: Conn, p: Packet, r: Packet) {
    && SameButTimes(c, c1) && c1.accepted == c.accepted && c1.bufs.value.recv == c.bufs.value.recv && r in c1.out
    && Renewal(r, p, c.bufs.value.recv.AckNum()) && r.eack == c.bufs.value.recv.SelectiveAck()
  }

  lemma ExpireResends(c: Conn, p: Packet, wire: seq<Packet>)
    requires Local(c) && Renewable(c, p)
    ensures CanAct(c, Protocol.Expire(p), false, LATER, wire)
    ensures Resent(c, Act(c, Protocol.Expire(p), false, LATER, wire), p, c.Renewed(p, LATER))
  {
    ExpireTurn(c, p, LATER, wire);
    ExpireSends(c, p, LATER);
    OnTimeoutIsQuiet(c, p, LATER);
  }

  lemma Expires(run: Run, p: Packet) returns (run1: Run, r: Packet)
    requires Ongoing(run) && Renewable(Last(run).a, p)
    ensures Ongoing(run1) && Last(run1).b == Last(run).b
    ensures Resent(Last(run).a, Last(run1).a, p, r) && Sendable(r)
  {
    LastIsPair(run);
    ExpireResends(Last(run).a, p, Last(run).b.out);
    r := Last(run).a.Renewed(p, LATER);
    run1 := Do(run, Initiator, Protocol.Expire(p), false, LATER);
    SentIsSendable(run1, Initiator, r);
  }

  lemma SentIsSendable(run: Run, role: Role, r: Packet)
    requires Ongoing(run) && r in Me(run, role).out
    ensures Sendable(r)
  {
    LastIsPair(run);
    assert Genuine(Me(run, role).endpoint, Me(run, role).bufs, r);
  }

  /** The timer fires: now the packet has a bitmap, and the extension byte still says that it has none. */
  lemma SentAgain(run: Run, p: Packet, ptype: PacketType, body: seq<u8>) returns (run1: Run, r: Packet)
    requires Ongoing(run) && Poised(Last(run), p, ptype, body) && (ptype == Data || ptype == Fin)
    ensures Ongoing(run1) && Last(run1).b == Last(run).b && Last(run1).a.accepted == Last(run).a.accepted
    ensures r in Last(run1).a.out
    ensures r.header.ptype == ptype && r.header.seqNum == SYN_NUM + 1 && r.header.ackNum == SYN_ACK - 1
    ensures r.body == body
    ensures WellFormed(r) && FromWire(r) == Ok(Mixed(r)) && 2 <= |EackBytes(r.eack)| <= 254
  {
    LastIsValid(run);
    assert Index(SYN_NUM, SYN_NUM + 1) == 0;
    run1, r := Expires(run, p);
    UnannouncedBitmapJoinsBody(r);
  }

  lemma OneAccepted(c: Conn, id: nat, data: seq<u8>)
    requires c.accepted == [QueuedWrite(id, data, 0)]
    ensures BytesAccepted(c) == data
  {
    JoinCons(data, []);
    assert WriteData(c.accepted) == [data] + [];
  }

  lemma ReadsAll(run: Run) returns (run1: Run)
    requires Ongoing(run) && Last(run).b.stateType == Connected && Last(run).b.readOut == []
    ensures Ongoing(run1) && Last(run1).a == Last(run).a
    ensures Last(run).b.bufs.Some? && BytesRead(Last(run1).b.readOut) == Last(run).b.bufs.value.recv.buf
    ensures Last(run).b.AtEof() ==> Eof in Last(run1).b.readOut
  {
    LastIsPair(run);
    FetchTurn(Last(run).b, LATER, Last(run).a.out);
    run1 := Do(run, Acceptor, Fetch, false, LATER);
  }

  /**
   * A reader can be given bytes that no one wrote. Whatever the initiator writes: if its packet is sent again by a
   * timeout while data of the acceptor waits out of order, the acceptor reads the bitmap as part of the stream.
   */
  lemma StreamCanGoWrong(data: seq<u8>) returns (run: Run)
    requires 0 < |data| <= PAYLOAD
    ensures Ongoing(run) && BytesAccepted(Last(run).a) == data
    ensures !(BytesRead(Last(run).b.readOut) <= BytesAccepted(Last(run).a))
  {
    var p, r;
    run, p := PoisedWithData(data);
    OneAccepted(Last(run).a, 3, data);
    run, r := SentAgain(run, p, Data, data);
    LastIsValid(run);
    WriteNext(Empty(SYN_NUM), Mixed(r).body);
    run := Takes(run, Acceptor, r, Mixed(r), LATER);
    run := ReadsAll(run);
  }

  lemma FinTurn(b: Conn, r: Packet, wire: seq<Packet>)
    requires b.Valid() && Open(b, SYN_ACK - 1, 2, 2) && b.bufs.value.recv == Empty(SYN_NUM)
    requires r in wire && WellFormed(r) && FromWire(r) == Ok(Mixed(r)) && |Mixed(r).body| <= 1000
    requires r.header.ptype == Fin && r.header.seqNum == SYN_NUM + 1 && r.header.ackNum == SYN_ACK - 1
    ensures CanAct(b, Arrive(r), false, LATER, wire)
    ensures var b1 := Act(b, Arrive(r), false, LATER, wire);
            && b1.stateType == Connected && b1.readOut == [] && b1.bufs.Some?
            && b1.bufs.value.recv.buf == Mixed(r).body && b1.AtEof()
  {
    var g := Mixed(r);
    WriteNext(Empty(SYN_NUM), g.body);
    FinStored(b, g, LATER);
    ArriveTurn(b, r, g, LATER, wire);
  }

  lemma TakesFin(run: Run, r: Packet) returns (run1: Run)
    requires Ongoing(run) && Open(Last(run).b, SYN_ACK - 1, 2, 2) && Last(run).b.bufs.value.recv == Empty(SYN_NUM)
    requires r in Last(run).a.out && WellFormed(r) && FromWire(r) == Ok(Mixed(r)) && |Mixed(r).body| <= 1000
    requires r.header.ptype == Fin && r.header.seqNum == SYN_NUM + 1 && r.header.ackNum == SYN_ACK - 1
    ensures Ongoing(run1) && Last(run1).a == Last(run).a && Last(run1).b.stateType == Connected
    ensures Last(run1).b.readOut == []
    ensures Last(run1).b.bufs.Some? && Last(run1).b.bufs.value.recv.buf == Mixed(r).body && Last(run1).b.AtEof()
  {
    LastIsValid(run);
    FinTurn(Last(run).b, r, Last(run).a.out);
    run1 := Do(run, Acceptor, Arrive(r), false, LATER);
  }

  /** The end of a stream can be reported although what was read is not what was written. */
  lemma EofCanBeWrong() returns (run: Run)
    ensures Ongoing(run) && Eof in Last(run).b.readOut && BytesAccepted(Last(run).a) == []
    ensures BytesRead(Last(run).b.readOut) != BytesAccepted(Last(run).a)
  {
    var p, r;
    run, p := PoisedWithFin();
    run, r := SentAgain(run, p, Fin, []);
    run := TakesFin(run, r);
    run := ReadsAll(run);
  }

  // ---------------------------------------------------------------- bytes taken for a bitmap

  /** A bitmap that names two numbers only: the second and the third after the ack. */
  function Double(): SelectiveAck {
    SelectiveAck([seq(32, (i: int) => i < 2)])
  }

  /** A payload that begins like that bitmap. */
  function Disguised(): seq<u8> {
    EackBytes(Some(Double())) + [9]
  }

  lemma DoubleNamesTwo()
    ensures WholeWords(Double()) && NamesTwo(Double()) && |EackBytes(Some(Double()))| == 6
  {
    var word := seq(32, (i: int) => i < 2);
    JoinCons(word, []);
    assert [word] + [] == [word];
    assert Double().Acked() == word;
  }

  /** The acceptor has sent four packets. */
  lemma FourSent() returns (run: Run, p1: Packet, p2: Packet, p3: Packet)
    ensures Ongoing(run)
    ensures var s := Last(run);
            && Open(s.a, SYN_NUM, 0, 0) && s.a.bufs.value.recv == Empty(SYN_ACK - 1)
            && Open(s.b, SYN_ACK - 1, 4, 4) && s.b.bufs.value.recv == Empty(SYN_NUM) && |s.b.accepted| == 4
            && forall k :: 0 <= k < 4 ==> |s.b.accepted[k].data| == 1
    ensures p1 in Last(run).b.out && Bare(p1, Data, SYN_ACK, SYN_NUM, [1])
    ensures p2 in Last(run).b.out && Bare(p2, Data, SYN_ACK + 1, SYN_NUM, [2])
    ensures p3 in Last(run).b.out && Bare(p3, Data, SYN_ACK + 2, SYN_NUM, [3])
  {
    var p4;
    run := Met();
    run, p1 := Sends(run, Acceptor, 0, 0, 1, [1], SYN_NUM);
    run, p2 := Sends(run, Acceptor, 1, 1, 2, [2], SYN_NUM);
    run, p3 := Sends(run, Acceptor, 2, 2, 3, [3], SYN_NUM);
    run, p4 := Sends(run, Acceptor, 3, 3, 4, [4], SYN_NUM);
  }

  /** The acceptor has sent four packets and its FIN, and has received nothing. */
  predicate Waiting(b: Conn) {
    && b.stateType == Connected && b.closing == Some(Closing(Some(SYN_ACK + 4), None)) && b.bufs.Some?
    && Sender(b.bufs.value.sent, SYN_ACK - 1, 5, 4, FIRST) && b.bufs.value.recv == Empty(SYN_NUM)
    && |b.accepted| == 4 && forall k :: 0 <= k < 4 ==> |b.accepted[k].data| == 1
  }

  /** The second of them has come to the initiator. */
  lemma FinSent() returns (run: Run, p1: Packet, p3: Packet)
    ensures Ongoing(run) && Waiting(Last(run).b)
    ensures Open(Last(run).a, SYN_NUM, 0, 0) && Last(run).a.bufs.value.recv == Gapped()
    ensures p1 in Last(run).b.out && Bare(p1, Data, SYN_ACK, SYN_NUM, [1])
    ensures p3 in Last(run).b.out && Bare(p3, Data, SYN_ACK + 2, SYN_NUM, [3])
  {
    var p2, f;
    run, p1, p2, p3 := FourSent();
    run, f := ShutsDown(run, Acceptor, 4, 4, SYN_NUM);
    LastIsValid(run);
    run := TakesAhead(run, p2);
  }

  /** The first packet of the initiator, which announces a bitmap. */
  predicate Announced(p: Packet, data: seq<u8>) {
    p.header.ptype == Data && p.header.seqNum == SYN_NUM + 1 && p.header.extension == 1 && p.body == data
  }

  lemma NextDataIsAnnounced(c: Conn, data: seq<u8>)
    requires c.Valid() && Open(c, SYN_NUM, 0, 0) && c.bufs.value.recv.pending != map[]
    ensures Announced(NextData(c, data), data)
  {
    NextNumber(c.bufs.value.sent);
  }

  lemma SendsAnnounced(run: Run, data: seq<u8>) returns (run1: Run, p: Packet)
    requires Ongoing(run) && Open(Last(run).a, SYN_NUM, 0, 0) && Last(run).a.bufs.value.recv.pending != map[]
    requires 0 < |data| <= PAYLOAD
    ensures Ongoing(run1) && Last(run1).b == Last(run).b
    ensures Open(Last(run1).a, SYN_NUM, 1, |data|) && Last(run1).a.bufs.value.recv == Last(run).a.bufs.value.recv
    ensures p in Last(run1).a.out && Announced(p, data)
  {
    LastIsValid(run);
    p := NextData(Last(run).a, data);
    NextDataIsAnnounced(Last(run).a, data);
    run1 := Writes(run, Initiator, 0, 0, FIRST, 5, data);
  }

  /** The initiator has sent one packet, and has received the first n of the acceptor. */
  predicate Holding(a: Conn, n: u16) {
    && a.stateType == Connected && a.closing.None? && a.readOut == [] && a.bufs.Some?
    && a.bufs.value.sent.init == SYN_NUM && Unacked(a.bufs.value.sent.packets) && a.bufs.value.recv.size == 1_048_576
    && a.bufs.value.recv.init == SYN_ACK - 1 && a.bufs.value.recv.consumed == n
    && |a.bufs.value.recv.buf| == n && a.bufs.value.recv.pending == map[]
  }

  lemma TakesMissing(run: Run, p1: Packet) returns (run1: Run)
    requires Ongoing(run) && Open(Last(run).a, SYN_NUM, 1, 7)
    requires p1 in Last(run).b.out && Bare(p1, Data, SYN_ACK, SYN_NUM, [1])
    requires Last(run).a.bufs.value.recv == Gapped()
    ensures Ongoing(run1) && Last(run1).b == Last(run).b && Last(run).a.out <= Last(run1).a.out
    ensures Holding(Last(run1).a, 2) && Sender(Last(run1).a.bufs.value.sent, SYN_NUM, 1, 7, FIRST)
  {
    LastIsValid(run);
    BareComes(run, Initiator, p1, Data, SYN_ACK, SYN_NUM, [1]);
    GapHolds();
    run1 := Takes(run, Initiator, p1, OnWire(p1), START);
    GapCloses();
  }

  /** The initiator has sent a packet with a bitmap, and then what was missing has come in. */
  lemma BitmapOutdated() returns (run: Run, p: Packet, p3: Packet)
    ensures Ongoing(run) && Waiting(Last(run).b) && Holding(Last(run).a, 2)
    ensures Sender(Last(run).a.bufs.value.sent, SYN_NUM, 1, 7, FIRST)
    ensures p in Last(run).a.out && Announced(p, Disguised())
    ensures p3 in Last(run).b.out && Bare(p3, Data, SYN_ACK + 2, SYN_NUM, [3])
  {
    var p1;
    run, p1, p3 := FinSent();
    GapHolds();
    DoubleNamesTwo();
    run, p := SendsAnnounced(run, Disguised());
    run := TakesMissing(run, p1);
  }

  /** The acceptor has taken the third for missing, and those after it for acked. */
  predicate Deceived(b: Conn) {
    && b.stateType == Connected && b.closing == Some(Closing(Some(SYN_ACK + 4), None)) && b.bufs.Some?
    && b.bufs.value.sent.init == SYN_ACK - 1 && ThirdMissing(b.bufs.value.sent.packets)
    && |b.accepted| == 4 && forall k :: 0 <= k < 4 ==> |b.accepted[k].data| == 1
  }

  lemma PhantomTurn(b: Conn, r: Packet, wire: seq<Packet>)
    requires b.Valid() && Waiting(b) && r in wire && Sendable(r)
    requires Announced(r, Disguised()) && r.eack == None && r.header.ackNum == SYN_ACK + 1
    ensures CanAct(b, Arrive(r), false, LATER, wire)
    ensures var b1 := Act(b, Arrive(r), false, LATER, wire); Deceived(b1) && b.out <= b1.out
  {
    DoubleNamesTwo();
    BodyTakenForBitmap(r, Double(), [9]);
    var g := OnWire(r).(eack := Some(Double()), body := [9]);
    PhantomStored(b, g, LATER);
    ArriveTurn(b, r, g, LATER, wire);
  }

  lemma TakesPhantom(run: Run, r: Packet) returns (run1: Run)
    requires Ongoing(run) && Waiting(Last(run).b) && r in Last(run).a.out && Sendable(r)
    requires Announced(r, Disguised()) && r.eack == None && r.header.ackNum == SYN_ACK + 1
    ensures Ongoing(run1) && Last(run1).a == Last(run).a && Deceived(Last(run1).b)
            && Last(run).b.out <= Last(run1).b.out
  {
    LastIsValid(run);
    PhantomTurn(Last(run).b, r, Last(run).a.out);
    run1 := Do(run, Acceptor, Arrive(r), false, LATER);
  }

  /** The acceptor takes for acked what the initiator has not received. */
  lemma PhantomAcked() returns (run: Run, p3: Packet)
    ensures Ongoing(run) && Deceived(Last(run).b) && Holding(Last(run).a, 2)
    ensures p3 in Last(run).b.out && Bare(p3, Data, SYN_ACK + 2, SYN_NUM, [3])
  {
    var p, r;
    run, p, p3 := BitmapOutdated();
    DoubleNamesTwo();
    LastIsValid(run);
    run, r := Expires(run, p);
    run := TakesPhantom(run, r);
  }

  lemma NotReceived(r: RecvState)
    requires r.init == SYN_ACK - 1 && r.consumed <= 3 && r.pending == map[]
    ensures !r.WasWritten(Number(SYN_ACK - 1, 3))
  {
    WrittenIsWithinReach(r, Number(SYN_ACK - 1, 3));
  }

  /**
   * An endpoint can take for acked what its peer has not received: a payload that begins like a bitmap, first sent
   * with a bitmap and sent again without one, passes for acks of its sender.
   */
  lemma AcksCanBePhantom() returns (run: Run)
    ensures Ongoing(run)
    ensures var a, b := Last(run).a, Last(run).b;
            && |SentOf(b.bufs)| == 5 && SentOf(b.bufs)[3].Acked()
            && a.bufs.Some? && !a.bufs.value.recv.WasWritten(Number(SYN_ACK - 1, 3))
  {
    var p3;
    run, p3 := PhantomAcked();
    NotReceived(Last(run).a.bufs.value.recv);
  }

  lemma FourAccepted(c: Conn)
    requires |c.accepted| == 4 && forall k :: 0 <= k < 4 ==> |c.accepted[k].data| == 1
    ensures |BytesAccepted(c)| == 4
  {
    var d := WriteData(c.accepted);
    assert d == [d[0]] + ([d[1]] + ([d[2]] + ([d[3]] + [])));
    JoinCons(d[3], []);
    JoinCons(d[2], [d[3]] + []);
    JoinCons(d[1], [d[2]] + ([d[3]] + []));
    JoinCons(d[0], [d[1]] + ([d[2]] + ([d[3]] + [])));
  }

  /** The third packet comes in, and the initiator acks it. */
  lemma TakesThird(run: Run, p3: Packet) returns (run1: Run, st: Packet)
    requires Ongoing(run) && Holding(Last(run).a, 2)
    requires p3 in Last(run).b.out && Bare(p3, Data, SYN_ACK + 2, SYN_NUM, [3])
    ensures Ongoing(run1) && Last(run1).b == Last(run).b && Holding(Last(run1).a, 3) && st in Last(run1).a.out
    ensures st.header.ptype == State && st.header.ackNum == SYN_ACK + 2 && st.eack == None && st.header.extension == 0
  {
    LastIsValid(run);
    BareComes(run, Initiator, p3, Data, SYN_ACK + 2, SYN_NUM, [3]);
    WriteNext(Last(run).a.bufs.value.recv, [3]);
    run1 := Takes(run, Initiator, p3, OnWire(p3), LATER);
    st := Last(run1).a.out[|Last(run).a.out|];
  }

  /**
   * An endpoint can close because its FIN passes for acked, without an error, while its peer lacks some of its bytes:
   * it is enough that the phantom acks name the FIN and a payload before it.
   */
  lemma AckedFinCanBeWrong() returns (run: Run)
    ensures Ongoing(run)
    ensures var a, b := Last(run).a, Last(run).b;
            && b.stateType == Closed && b.err == None && b.LocalFin().Some? && b.bufs.Some?
            && b.bufs.value.sent.LastAckNum() == b.LocalFin()
            && a.bufs.Some? && BytesRead(a.readOut) + a.bufs.value.recv.buf != BytesAccepted(b)
  {
    var p3, st;
    run, p3 := PhantomAcked();
    run, st := TakesThird(run, p3);
    FourAccepted(Last(run).b);
    run := TakesLastAck(run, st);
  }

  lemma TakesLastAck(run: Run, st: Packet) returns (run1: Run)
    requires Ongoing(run) && Deceived(Last(run).b) && st in Last(run).a.out
    requires st.header.ptype == State && st.header.ackNum == SYN_ACK + 2 && st.eack == None && st.header.extension == 0
    ensures Ongoing(run1) && Last(run1).a == Last(run).a
    ensures var b, b1 := Last(run).b, Last(run1).b;
            && b1.stateType == Closed && b1.err == None && b1.LocalFin().Some? && b1.bufs.Some?
            && b1.bufs.value.sent.LastAckNum() == b1.LocalFin() && b1.accepted == b.accepted
  {
    LastIsPair(run);
    assert Genuine(Last(run).a.endpoint, Last(run).a.bufs, st);
    PacketRoundTrip(st);
    PhantomCloses(Last(run).b, OnWire(st), LATER);
    LastTurn(Last(run).b, st, OnWire(st), LATER, Last(run).a.out);
    run1 := Do(run, Acceptor, Arrive(st), false, LATER);
  }

  // ---------------------------------------------------------------- bytes never read

  /** An endpoint whose FIN is out, and to which no FIN has come. */
  ghost predicate Leaving(a: Conn, recv: RecvState) {
    && Unanswered(a) && a.LocalFin().Some? && a.RemoteFin().None? && a.bufs.value.sent.packets != [] && a.readOut == []
    && a.bufs.value.sent.init == SYN_NUM && a.bufs.value.recv == recv
  }

  lemma BothShutDown(data: seq<u8>) returns (run: Run, p1: Packet, p2: Packet)
    requires 0 < |data| <= PAYLOAD
    ensures Ongoing(run) && Leaving(Last(run).a, Empty(SYN_ACK - 1))
    ensures Last(run).b.accepted == [QueuedWrite(1, data, 0)]
    ensures p1 in Last(run).b.out && Bare(p1, Data, SYN_ACK, SYN_NUM, data)
    ensures p2 in Last(run).b.out && Bare(p2, Fin, SYN_ACK + 1, SYN_NUM, [])
  {
    var f;
    run := Met();
    run, p1 := Sends(run, Acceptor, 0, 0, 1, data, SYN_NUM);
    run, f := ShutsDown(run, Initiator, 0, 0, SYN_ACK - 1);
    run, p2 := ShutsDown(run, Acceptor, 1, |data|, SYN_NUM);
    LastIsValid(run);
  }

  lemma TakesFirst(run: Run, p1: Packet, data: seq<u8>) returns (run1: Run)
    requires Ongoing(run) && Leaving(Last(run).a, Empty(SYN_ACK - 1)) && 0 < |data| <= PAYLOAD
    requires p1 in Last(run).b.out && Bare(p1, Data, SYN_ACK, SYN_NUM, data)
    ensures Ongoing(run1) && Last(run1).b == Last(run).b
    ensures Leaving(Last(run1).a, Empty(SYN_ACK - 1).(consumed := 1, buf := [] + data))
  {
    BareComes(run, Initiator, p1, Data, SYN_ACK, SYN_NUM, data);
    WriteNext(Empty(SYN_ACK - 1), data);
    run1 := Takes(run, Initiator, p1, OnWire(p1), START);
    LastIsValid(run1);
  }

  /** A connection can close without an error although data that has come in was never handed to the reader. */
  lemma ReadableCanBeLost(data: seq<u8>) returns (run: Run)
    requires 0 < |data| <= PAYLOAD
    ensures Ongoing(run) && BytesAccepted(Last(run).b) == data
    ensures var a := Last(run).a;
            && a.stateType == Closed && a.err == None && a.readOut == []
            && a.bufs.Some? && a.bufs.value.recv.buf == data
  {
    var p1, p2;
    run, p1, p2 := BothShutDown(data);
    run := TakesFirst(run, p1, data);
    WriteNext(Empty(SYN_ACK - 1).(consumed := 1, buf := [] + data), []);
    OneAccepted(Last(run).b, 1, data);
    BareComes(run, Initiator, p2, Fin, SYN_ACK + 1, SYN_NUM, []);
    SecondFinEnds(Last(run).a, OnWire(p2), START);
    LastTurn(Last(run).a, p2, OnWire(p2), START, Last(run).b.out);
    run := Do(run, Initiator, Arrive(p2), false, START);
  }

  // ---------------------------------------------------------------- a FIN that does not fit

  /** The first ack of the initiator makes its window grow. */
  lemma SenderGrows(s: SentState, bytes: nat, delay: int)
    requires s.Valid() && Sender(s, SYN_NUM, 1, bytes, FIRST) && 0 < bytes
    ensures var (t, error) := s.OnAck(SYN_NUM + 1, None, delay, START);
            && error != Some(InvalidAckNum) && t.Valid() && t.lost == {} && Sender(t, SYN_NUM, 1, 0, FIRST + 1024)
  {
    OnlyInFlight(s);
    OnlyAcked(s, delay, START);
  }

  lemma AckTurn(c: Conn, bytes: nat, st: Packet, wire: seq<Packet>)
    requires c.Valid() && Open(c, SYN_NUM, 1, bytes) && 0 < bytes && st in wire && Sendable(st) && ExtensionAgrees(st)
    requires st.header.ptype == State && st.eack == None && st.header.ackNum == SYN_NUM + 1 && st.header.wnd >= 2000
    ensures CanAct(c, Arrive(st), false, START, wire)
    ensures Grown(Act(c, Arrive(st), false, START, wire), SYN_NUM, 1, 0, FIRST + 1024)
  {
    var g := OnWire(st);
    PacketRoundTrip(st);
    SenderGrows(c.bufs.value.sent, bytes, g.header.tsDiff * 1000);
    var t := c.bufs.value.sent.OnAck(g.header.ackNum, g.eack, g.header.tsDiff * 1000, START).0;
    OnlyAckTaken(c, g, t, START);
    ArriveTurn(c, st, g, START, wire);
  }

  function Zeros(n: nat): seq<u8> {
    seq(n, (i: int) => 0)
  }

  /** What the acceptor says of itself when it has received the first packet. */
  lemma AfterFirst(data: seq<u8>)
    requires 0 < |data| <= PAYLOAD
    ensures Empty(SYN_NUM).Valid() && |data| <= Empty(SYN_NUM).Available()
    ensures var r := Empty(SYN_NUM).Write(data, SYN_NUM + 1);
            && r.buf == data && r.AckNum() == SYN_NUM + 1 && r.SelectiveAck() == None && Wrap32(r.Available()) >= 2000
  {
    WriteNext(Empty(SYN_NUM), data);
    assert [] + data == data;
  }

  /** The acceptor takes the first packet and acks it. */
  lemma FirstTaken(run: Run, p: Packet, data: seq<u8>) returns (run1: Run, st: Packet)
    requires Ongoing(run) && Open(Last(run).b, SYN_ACK - 1, 0, 0) && Last(run).b.bufs.value.recv == Empty(SYN_NUM)
    requires p in Last(run).a.out && Bare(p, Data, SYN_NUM + 1, SYN_ACK - 1, data) && 0 < |data| <= PAYLOAD
    ensures Ongoing(run1) && Last(run1).a == Last(run).a && st in Last(run1).b.out
    ensures Sendable(st) && ExtensionAgrees(st)
    ensures Last(run1).b.stateType == Connected && Last(run1).b.readOut == [] && Last(run1).b.bufs.Some?
    ensures Last(run1).b.bufs.value.recv.buf == data
    ensures st.header.ptype == State && st.eack == None && st.header.ackNum == SYN_NUM + 1 && st.header.wnd >= 2000
  {
    LastIsValid(run);
    BareComes(run, Acceptor, p, Data, SYN_NUM + 1, SYN_ACK - 1, data);
    AfterFirst(data);
    run1 := Takes(run, Acceptor, p, OnWire(p), START);
    st := Last(run1).b.out[|Last(run).b.out|];
    SentIsSendable(run1, Acceptor, st);
  }

  /** The initiator has sent a packet of 900 bytes, and it is acked. */
  lemma FirstAcked() returns (run: Run)
    ensures Ongoing(run) && Grown(Last(run).a, SYN_NUM, 1, 0, FIRST + 1024)
  {
    var p, st;
    run := Met();
    run, p := Sends(run, Initiator, 0, 0, 1, Zeros(900), SYN_ACK - 1);
    run, st := FirstTaken(run, p, Zeros(900));
    LastIsValid(run);
    AckTurn(Last(run).a, 900, st, Last(run).b.out);
    run := Do(run, Initiator, Arrive(st), false, START);
  }

  /** Then it uses the larger window. */
  lemma WindowUsed() returns (run: Run, p: Packet)
    ensures Ongoing(run) && Grown(Last(run).a, SYN_NUM, 4, 2700, FIRST + 1024)
    ensures p in Last(run).a.out && p.header.ptype == Data && p.header.seqNum == SYN_NUM + 4 && |p.body| == 900
  {
    run := FirstAcked();
    run := Writes(run, Initiator, 1, 0, FIRST + 1024, 2, Zeros(900));
    run := Writes(run, Initiator, 2, 900, FIRST + 1024, 3, Zeros(900));
    LastIsValid(run);
    p := NextData(Last(run).a, Zeros(900));
    NextNumber(Last(run).a.bufs.value.sent);
    run := Writes(run, Initiator, 3, 1800, FIRST + 1024, 4, Zeros(900));
  }

  /** The timer fires, and the window falls back to its minimum: what is in flight no longer fits. */
  lemma NoRoomForFin(c: Conn, p: Packet, wire: seq<Packet>)
    requires c.Valid() && Grown(c, SYN_NUM, 4, 2700, FIRST + 1024)
    requires p in c.out && p.header.ptype == Data && p.header.seqNum == SYN_NUM + 4 && |p.body| == 900
    ensures CanAct(c, Protocol.Expire(p), false, LATER, wire)
    ensures var c1 := Act(c, Protocol.Expire(p), false, LATER, wire);
            && c1.Valid() && c1.WantsFin() && !c1.CanFin()
            && !c1.bufs.value.sent.CanTransmit(c1.bufs.value.sent.NextSeqNum(), 0)
  {
    assert Index(SYN_NUM, SYN_NUM + 4) == 3;
    ExpireTurn(c, p, LATER, wire);
    ExpireSends(c, p, LATER);
    FinAfterTimeoutIff(c, p, LATER);
    var c1 := Act(c, Protocol.Expire(p), false, LATER, wire);
    FreshPanicsIff(c1.bufs.value.sent, 0);
  }

  /**
   * A shutdown can panic: a FIN has no bytes, and still cannot be sent when a timeout has left more in flight than its
   * window.
   */
  lemma FinCanPanic() returns (run: Run)
    ensures Ongoing(run)
    ensures var a := Last(run).a;
            && a.Valid() && a.WantsFin() && !a.CanFin()
            && !a.bufs.value.sent.CanTransmit(a.bufs.value.sent.NextSeqNum(), 0)
  {
    var p;
    run, p := WindowUsed();
    LastIsValid(run);
    NoRoomForFin(Last(run).a, p, Last(run).b.out);
    run := Do(run, Initiator, Protocol.Expire(p), false, LATER);
  }

  // ---------------------------------------------------------------- a writer that reuses its memory

  /** The write has been taken and reported complete, and waits in the send buffer. */
  predicate Taken(c: Conn, data: seq<u8>, held: seq<u8>) {
    && c.stateType == Connected && c.cfg == PLAIN && c.closing.None? && c.pendingWrites == []
    && c.peerRecvWindow >= 2000
    && c.accepted == [QueuedWrite(1, data, 0)] && c.drafts == [QueuedWrite(1, held, 0)]
    && c.results == [Written(1, |data|)] && c.bufs.Some? && c.bufs.value.recv == Empty(SYN_ACK - 1)
    && c.bufs.value.send == SendState(PLAIN.bufferSize, [held], 0) && Sender(c.bufs.value.sent, SYN_NUM, 0, 0, FIRST)
  }

  lemma TakenTurn(c: Conn, data: seq<u8>, wire: seq<Packet>)
    requires c.Valid() && Open(c, SYN_NUM, 0, 0) && c.accepted == [] && c.drafts == [] && c.results == []
    requires c.bufs.value.recv == Empty(SYN_ACK - 1) && 0 < |data| <= PAYLOAD
    ensures CanAct(c, Submit(1, data), false, START, wire)
    ensures Taken(Act(c, Submit(1, data), false, START, wire), data, data)
  {
    SubmitTurn(c, 1, data, START, wire);
  }

  /** The writer puts other bytes in the place of those it has handed over. */
  lemma ScribbleTurn(c: Conn, data: seq<u8>, other: seq<u8>, wire: seq<Packet>)
    requires c.Valid() && Taken(c, data, data) && |data| == |other|
    ensures var e := Scribble([other], [], [QueuedWrite(1, other, 0)]);
            CanAct(c, e, false, START, wire) && Taken(Act(c, e, false, START, wire), data, other)
  {
    ScribbleViews(c, data, other);
  }

  lemma ScribbleViews(c: Conn, data: seq<u8>, other: seq<u8>)
    requires c.Valid() && c.bufs.Some? && c.bufs.value.send == SendState(PLAIN.bufferSize, [data], 0)
    requires c.pendingWrites == [] && c.drafts == [QueuedWrite(1, data, 0)] && c.results == [Written(1, |data|)]
    requires c.bufs.value.sent.packets == [] && |data| == |other|
    ensures CanRewrite(c, [other], [], [QueuedWrite(1, other, 0)])
  {
    var w := QueuedWrite(1, other, 0);
    JoinCons(other, []);
    assert [other] + [] == [other];
    assert WriteData([w]) == [other];
    assert Payloads([]) == [];
    assert Completions(c.results[..0]) == [];
    assert [w][..1] == [w];
    assert Whole([w]) == [(1, |data|)];
  }

  lemma SpoiltSent(c: Conn, data: seq<u8>, other: seq<u8>, wire: seq<Packet>)
    requires c.Valid() && Taken(c, data, other) && 0 < |data| == |other| <= PAYLOAD
    ensures CanAct(c, Flush, false, START, wire)
    ensures var c1, p := Act(c, Flush, false, START, wire), NextData(c, other);
            && p in c1.out && Bare(p, Data, SYN_NUM + 1, SYN_ACK - 1, other)
            && c1.accepted == c.accepted && c1.results == c.results
  {
    NextDataIsBare(c, SYN_NUM, 0, other, SYN_ACK - 1);
    assert Flushable(c, other);
    FlushTurn(c, other, START, wire);
  }

  /**
   * A reader can be given bytes that its peer did not accept, without any fault of the network: a write is reported
   * complete while the send buffer still holds the memory of the writer, which may put something else there.
   */
  lemma WriterCanSpoil(data: seq<u8>, other: seq<u8>) returns (run: Run)
    requires 0 < |data| == |other| <= PAYLOAD
    ensures Ongoing(run) && Last(run).a.results == [Written(1, |data|)]
    ensures BytesAccepted(Last(run).a) == data && BytesRead(Last(run).b.readOut) == other
  {
    run := Met();
    LastIsValid(run);
    TakenTurn(Last(run).a, data, Last(run).b.out);
    run := Do(run, Initiator, Submit(1, data), false, START);
    LastIsValid(run);
    ScribbleTurn(Last(run).a, data, other, Last(run).b.out);
    run := Do(run, Initiator, Scribble([other], [], [QueuedWrite(1, other, 0)]), false, START);
    OneAccepted(Last(run).a, 1, data);
    run := SpoiltRead(run, data, other);
  }

  lemma SpoiltRead(run: Run, data: seq<u8>, other: seq<u8>) returns (run1: Run)
    requires Ongoing(run) && Taken(Last(run).a, data, other) && 0 < |data| == |other| <= PAYLOAD
    requires Open(Last(run).b, SYN_ACK - 1, 0, 0) && Last(run).b.bufs.value.recv == Empty(SYN_NUM)
    ensures Ongoing(run1) && BytesRead(Last(run1).b.readOut) == other
    ensures Last(run1).a.accepted == Last(run).a.accepted && Last(run1).a.results == Last(run).a.results
  {
    LastIsValid(run);
    SpoiltSent(Last(run).a, data, other, Last(run).b.out);
    var p := NextData(Last(run).a, other);
    var st;
    run1 := Do(run, Initiator, Flush, false, START);
    run1, st := FirstTaken(run1, p, other);
    run1 := ReadsAll(run1);
  }
}
