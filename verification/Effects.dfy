/** What the handlers of a connection do, seen from outside: what is sent, what it says, and what ends. */
module Effects {
  import opened Words
  import opened Collections
  import opened CircularRanges
  import opened Packets
  import opened SendBuffers
  import opened ReceiveBuffers
  import opened Sending
  import opened Connections
  import opened Invariants
  import opened Writers
  import opened Frames
  import opened Protocol
  import opened Theorems

  // ---------------------------------------------------------------- what a packet says

  /**
   * The packet is addressed to the peer and dated, and says of the receiving side how far it has come, what waits
   * behind a gap, and how much room is left.
   */
  ghost predicate Describes(p: Packet, r: RecvState, cid: u16, micros: int) {
    && p.header.connId == cid && Wrap32(p.header.timestamp) == Wrap32(micros)
    && p.header.ackNum == r.AckNum() && p.eack == r.SelectiveAck() && p.header.wnd == Wrap32(r.Available())
  }

  /** Every STATE, DATA and FIN that is sent between the two outputs describes the receiving side. */
  ghost predicate Shows(out: seq<Packet>, out1: seq<Packet>, r: RecvState, cid: u16, micros: int) {
    && out <= out1
    && forall k :: |out| <= k < |out1| && out1[k].header.ptype in {State, Data, Fin} ==>
         Describes(out1[k], r, cid, micros)
  }

  lemma StampedDescribes(c: Conn, ptype: PacketType, seqNum: u16, tsDiff: u32, body: seq<u8>, clock: Clock)
    requires c.bufs.Some?
    ensures Describes(c.Stamped(ptype, seqNum, tsDiff, body, clock), c.bufs.value.recv, c.cidSend, clock.micros)
  {
  }

  lemma ShowsOne(out: seq<Packet>, p: Packet, r: RecvState, cid: u16, micros: int)
    requires p.header.ptype in {State, Data, Fin} ==> Describes(p, r, cid, micros)
    ensures Shows(out, out + [p], r, cid, micros)
  {
  }

  lemma ShowsOn(a: seq<Packet>, b: seq<Packet>, c: seq<Packet>, r: RecvState, cid: u16, micros: int)
    requires Shows(a, b, r, cid, micros) && Shows(b, c, r, cid, micros)
    ensures Shows(a, c, r, cid, micros)
  {
    forall k | |a| <= k < |c| && c[k].header.ptype in {State, Data, Fin} ensures Describes(c[k], r, cid, micros) {
      if k < |b| {
        assert c[k] == b[k];
      }
    }
  }

  lemma RepeatDescribes(c: Conn, q: u16, clock: Clock)
    requires c.bufs.Some? && Index(c.bufs.value.sent.init, q) < |c.bufs.value.sent.packets|
    ensures Describes(c.Repeat(q, clock), c.bufs.value.recv, c.cidSend, clock.micros)
  {
    var p := c.bufs.value.sent.packets[Index(c.bufs.value.sent.init, q)];
    StampedDescribes(c, p.ptype, q, c.TsDiff(), p.data, clock);
  }

  lemma {:induction false} ResendAllShows(c: Conn, lost: set<u16>, clock: Clock)
    requires c.Valid() && c.Resendable(lost)
    ensures Shows(c.out, c.ResendAll(lost, clock).out, c.bufs.value.recv, c.cidSend, clock.micros)
    decreases |lost|
  {
    if lost != {} {
      var q := Smallest(lost);
      ResendNext(c, lost, q, clock);
      var c1 := c.Transmit(c.Repeat(q, clock), clock);
      RepeatDescribes(c, q, clock);
      ShowsOne(c.out, c.Repeat(q, clock), c.bufs.value.recv, c.cidSend, clock.micros);
      ResendAllShows(c1, lost - {q}, clock);
      ShowsOn(c.out, c1.out, c1.ResendAll(lost - {q}, clock).out, c.bufs.value.recv, c.cidSend, clock.micros);
    }
  }

  lemma {:induction false} SendAllShows(c: Conn, payloads: seq<seq<u8>>, seqNum: u16, clock: Clock)
    requires c.Valid() && c.bufs.Some? && seqNum == c.bufs.value.sent.NextSeqNum()
    requires |c.bufs.value.sent.packets| + |payloads| <= MAX_PACKETS
    requires payloads == [] || c.bufs.value.sent.ctrl.window + |Join(payloads)| <= c.bufs.value.sent.ctrl.maxWindow
    ensures Shows(c.out, c.SendAll(payloads, seqNum, clock).out, c.bufs.value.recv, c.cidSend, clock.micros)
    decreases |payloads|
  {
    if payloads != [] {
      SendFits(c, payloads, clock);
      var p := c.Stamped(Data, seqNum, c.TsDiff(), payloads[0], clock);
      var c1 := c.Transmit(p, clock);
      StampedDescribes(c, Data, seqNum, c.TsDiff(), payloads[0], clock);
      ShowsOne(c.out, p, c.bufs.value.recv, c.cidSend, clock.micros);
      SendAllShows(c1, payloads[1..], Add(seqNum, 1), clock);
      var out1 := c1.SendAll(payloads[1..], Add(seqNum, 1), clock).out;
      ShowsOn(c.out, c1.out, out1, c.bufs.value.recv, c.cidSend, clock.micros);
    }
  }

  /** What serving the writer sends. */
  lemma ProcessWritesShows(c: Conn, clock: Clock)
    requires c.Valid() && c.stateType == Connected && c.HasNumbers()
    ensures Shows(c.out, c.ProcessWrites(clock).out, c.bufs.value.recv, c.cidSend, clock.micros)
  {
    PayloadsFit(c);
    var cut := c.NextPayloads();
    RefillIsValid(cut.send, c.pendingWrites, c.results);
    var r := Refill(cut.send, c.pendingWrites, c.results);
    var c0 := c.(bufs := Some(c.bufs.value.(send := r.send)), pendingWrites := r.writes, results := r.results);
    SendAllShows(c0, cut.payloads, c.bufs.value.sent.NextSeqNum(), clock);
  }

  // ---------------------------------------------------------------- what a packet is answered with

  /** DATA and FIN are answered with a STATE, and so is a SYN unless it was before. */
  predicate WantsState(c: Conn, p: Packet) {
    p.header.ptype == Data || p.header.ptype == Fin || (p.header.ptype == Syn && c.synState.None?)
  }

  /** Behind n packets there is exactly one more, a STATE under the next number, if one is wanted, or nothing. */
  ghost predicate Answered(out: seq<Packet>, n: nat, wanted: bool, next: u16, r: RecvState, cid: u16, micros: int) {
    && |out| == n + (if wanted then 1 else 0)
    && (wanted ==>
         && out[n].header.ptype == State && out[n].header.seqNum == next && out[n].body == []
         && Describes(out[n], r, cid, micros))
  }

  lemma RespondAnswers(c: Conn, p: Packet, clock: Clock)
    requires c.Valid() && c.stateType == Connected
    ensures c.out <= c.Respond(p, clock).out
    ensures Answered(c.Respond(p, clock).out, |c.out|, WantsState(c, p), c.bufs.value.sent.NextSeqNum(),
                     c.bufs.value.recv, c.cidSend, clock.micros)
  {
    StampedDescribes(c, State, c.bufs.value.sent.NextSeqNum(), c.TsDiff(), [], clock);
  }

  predicate SameAcks(a: seq<SentPacket>, b: seq<SentPacket>) {
    |a| == |b| && forall k :: 0 <= k < |a| ==> a[k].seqNum == b[k].seqNum && (a[k].Acked() <==> b[k].Acked())
  }

  lemma RepeatKeepsAcks(c: Conn, q: u16, clock: Clock)
    requires c.Valid() && c.Resendable({q})
    ensures Index(c.bufs.value.sent.init, q) < |c.bufs.value.sent.packets| && c.CanTransmit(c.Repeat(q, clock))
    ensures var s, t := c.bufs.value.sent, c.Transmit(c.Repeat(q, clock), clock).bufs.value.sent;
            t.init == s.init && SameAcks(s.packets, t.packets) && t.ctrl.maxWindow == s.ctrl.maxWindow
  {
    ResendNext(c, {q}, q, clock);
    var s := c.bufs.value.sent;
    var p := s.packets[Index(s.init, q)];
    assert Matches(s.ctrl.tx[q], p);
    Retransmission(s, q, p.ptype, p.data, clock.now);
  }

  /** Sending again changes nothing but the output, the times and the counters. */
  lemma {:induction false} ResendAllCounts(c: Conn, lost: set<u16>, clock: Clock)
    requires c.Valid() && c.Resendable(lost)
    ensures var c1 := c.ResendAll(lost, clock);
            && c1 == c.(bufs := c1.bufs, out := c1.out) && c1.bufs.Some? && c1.bufs.value.recv == c.bufs.value.recv
            && c1.bufs.value.sent.init == c.bufs.value.sent.init
            && c1.bufs.value.sent.ctrl.maxWindow == c.bufs.value.sent.ctrl.maxWindow
            && SameAcks(c.bufs.value.sent.packets, c1.bufs.value.sent.packets)
    decreases |lost|
  {
    if lost != {} {
      var q := Smallest(lost);
      ResendNext(c, lost, q, clock);
      RepeatKeepsAcks(c, q, clock);
      ResendAllCounts(c.Transmit(c.Repeat(q, clock), clock), lost - {q}, clock);
    }
  }

  /** What is sent between the two outputs has numbers of the set, in ascending order. */
  predicate Ascends(out: seq<Packet>, out1: seq<Packet>, numbers: set<u16>) {
    && out <= out1
    && (forall k :: |out| <= k < |out1| ==> out1[k].header.seqNum in numbers)
    && forall j, k :: |out| <= j < k < |out1| ==> out1[j].header.seqNum < out1[k].header.seqNum
  }

  lemma AscendsOn(out: seq<Packet>, p: Packet, out1: seq<Packet>, numbers: set<u16>)
    requires p.header.seqNum in numbers && (forall x :: x in numbers ==> p.header.seqNum <= x)
    requires Ascends(out + [p], out1, numbers - {p.header.seqNum})
    ensures Ascends(out, out1, numbers)
  {
    assert out1[|out|] == p;
  }

  lemma {:induction false} ResendAllAscends(c: Conn, lost: set<u16>, clock: Clock)
    requires c.Valid() && c.Resendable(lost)
    ensures Ascends(c.out, c.ResendAll(lost, clock).out, lost)
    decreases |lost|
  {
    if lost != {} {
      var q := Smallest(lost);
      ResendNext(c, lost, q, clock);
      ResendAllAscends(c.Transmit(c.Repeat(q, clock), clock), lost - {q}, clock);
      AscendsOn(c.out, c.Repeat(q, clock), c.ResendAll(lost, clock).out, lost);
    }
  }

  lemma RespondShows(c: Conn, p: Packet, clock: Clock)
    requires c.Valid() && c.stateType == Connected
    ensures Shows(c.out, c.Respond(p, clock).out, c.bufs.value.recv, c.cidSend, clock.micros)
  {
    var sent := c.Respond(p, clock).out;
    if sent != c.out {
      assert sent == c.out + [sent[|c.out|]];
      ShowsOne(c.out, sent[|c.out|], c.bufs.value.recv, c.cidSend, clock.micros);
    }
  }

  /**
   * Each packet that is lost is sent again, exactly once and with its bytes, in ascending order, and then comes a STATE
   * if one is wanted, and nothing else. All of it describes what has been received.
   */
  ghost predicate FullyAnswered(h: Conn, p: Packet, out: seq<Packet>, clock: Clock)
    requires h.bufs.Some?
  {
    var s, r, n := h.bufs.value.sent, h.bufs.value.recv, |h.out| + |h.bufs.value.sent.lost|;
    && n <= |out| && AllResent(s, h.out, out[..n], s.lost) && Ascends(h.out, out[..n], s.lost)
    && Answered(out, n, WantsState(h, p), s.NextSeqNum(), r, h.cidSend, clock.micros)
    && Shows(h.out, out, r, h.cidSend, clock.micros)
  }

  lemma InFull(h: Conn, p: Packet, resent: seq<Packet>, out: seq<Packet>, clock: Clock)
    requires h.bufs.Some? && resent <= out
    requires AllResent(h.bufs.value.sent, h.out, resent, h.bufs.value.sent.lost)
    requires Ascends(h.out, resent, h.bufs.value.sent.lost)
    requires Answered(out, |resent|, WantsState(h, p), h.bufs.value.sent.NextSeqNum(), h.bufs.value.recv, h.cidSend,
                      clock.micros)
    requires Shows(h.out, out, h.bufs.value.recv, h.cidSend, clock.micros)
    ensures FullyAnswered(h, p, out, clock)
  {
    assert out[..|resent|] == resent;
  }

  lemma ReplyShows(h: Conn, p: Packet, clock: Clock)
    requires h.Valid() && h.CanRetransmit() && h.stateType == Connected
    ensures Shows(h.out, h.RetransmitLost(clock).Respond(p, clock).out, h.bufs.value.recv, h.cidSend, clock.micros)
  {
    var lost := h.bufs.value.sent.lost;
    ResendAllShows(h, lost, clock);
    ResendAllCounts(h, lost, clock);
    var c1 := h.RetransmitLost(clock);
    RespondShows(c1, p, clock);
    ShowsOn(h.out, c1.out, c1.Respond(p, clock).out, h.bufs.value.recv, h.cidSend, clock.micros);
  }

  lemma ReplyAnswers(h: Conn, p: Packet, clock: Clock)
    requires h.Valid() && h.CanRetransmit() && h.stateType == Connected
    ensures FullyAnswered(h, p, h.RetransmitLost(clock).Respond(p, clock).out, clock)
  {
    var lost := h.bufs.value.sent.lost;
    LostAreResent(h, lost, clock);
    ResendAllAscends(h, lost, clock);
    ResendAllCounts(h, lost, clock);
    var c1 := h.RetransmitLost(clock);
    RespondAnswers(c1, p, clock);
    ReplyShows(h, p, clock);
    InFull(h, p, c1.out, c1.Respond(p, clock).out, clock);
  }

  /** Every packet that leaves the connection up is answered in full, itself taken into account. */
  lemma OnPacketAnswers(c: Conn, p: Packet, clock: Clock)
    requires c.Valid() && CanHandle(c, p, clock) && c.Handled(p, clock).stateType == Connected
    ensures c.Handled(p, clock).out == c.out && c.Handled(p, clock).bufs.value.sent.LostExact()
    ensures FullyAnswered(c.Handled(p, clock), p, c.OnPacket(p, clock).out, clock)
  {
    var h := c.Handled(p, clock);
    HandledIsSilent(c, p, clock);
    ReplyAnswers(h, p, clock);
    ConcludeIsSilent(h.RetransmitLost(clock).Respond(p, clock));
  }

  /** An endpoint that is not up answers nothing, but for a SYN that closed it, which it answers with a RESET. */
  lemma DownAnswers(h: Conn, p: Packet, clock: Clock)
    requires h.Valid() && (h.stateType == Closed || (h.stateType == Connecting && h.endpoint.role == Initiator))
    ensures var out := h.RetransmitLost(clock).Respond(p, clock).out;
            if p.header.ptype == Syn && h.synState.None? then
              && |out| == |h.out| + 1 && h.out <= out
              && var r := out[|h.out|]; r.header.ptype == Reset && r.header.connId == p.header.connId && r.body == []
            else out == h.out
  {
  }

  // ---------------------------------------------------------------- what ends a connection

  /** An ack number that is neither the first nor that of a packet sent. */
  predicate AcksUnsent(c: Conn, p: Packet) {
    && c.stateType == Connected && c.bufs.Some? && p.header.ackNum != c.bufs.value.sent.init
    && Index(c.bufs.value.sent.init, p.header.ackNum) >= |c.bufs.value.sent.packets|
  }

  /** A number beyond that of the peer's FIN. */
  predicate BeyondFin(c: Conn, p: Packet) {
    && c.stateType == Connected && c.bufs.Some? && c.RemoteFin().Some?
    && Sub(p.header.seqNum, c.bufs.value.recv.init) > Sub(c.RemoteFin().value, c.bufs.value.recv.init)
  }

  /** What is wrong with a packet, if anything, by what is known of the connection. */
  function Refusal(c: Conn, p: Packet): Option<ConnError> {
    var unsent := if AcksUnsent(c, p) then Some(BadAckNum) else None;
    match p.header.ptype
    case Reset => Some(PeerReset)
    case Syn =>
      if c.endpoint.role == Initiator then Some(SynFromAcceptor)
      else if p.header.seqNum != c.endpoint.synNum then Some(BadSyn) else None
    case State => unsent
    case Data => if p.body == [] then Some(EmptyPayload) else if BeyondFin(c, p) then Some(BadSeqNum) else unsent
    case Fin =>
      if c.stateType == Connected && c.RemoteFin().Some? && p.header.seqNum != c.RemoteFin().value then Some(BadFin)
      else unsent
  }

  /** The connection is up, or has not been yet. */
  predicate IsOpen(c: Conn) {
    c.stateType != Closed && c.err.None? && (c.stateType == Connecting ==> c.bufs.None? && c.closing.None?)
  }

  /** The error a refused packet leaves: none is told once our FIN is out, but for a number beyond the peer's. */
  function ErrorFor(c: Conn, refusal: ConnError): Option<ConnError> {
    if c.LocalFin().Some? && refusal != BadSeqNum then None else Some(refusal)
  }

  /** A refused packet is one that closes the connection before it is answered. */
  predicate Refuses(c: Conn, h: Conn, refusal: Option<ConnError>) {
    match refusal
    case None => h.stateType != Closed && h.err.None?
    case Some(r) => h.stateType == Closed && h.err == ErrorFor(c, r)
  }

  lemma DataRefuses(c: Conn, p: Packet)
    requires c.Valid() && IsOpen(c) && p.header.ptype == Data && Refusal(c, p) != Some(BadAckNum)
    ensures Refuses(c, c.OnData(p.header.seqNum, p.body), Refusal(c, p))
  {
    if c.stateType == Connected && c.RemoteFin().Some? {
      ContainsIsDistance(c.bufs.value.recv.init, c.RemoteFin().value, p.header.seqNum);
    }
  }

  lemma FinRefuses(c: Conn, p: Packet)
    requires c.Valid() && IsOpen(c) && p.header.ptype == Fin && Refusal(c, p) != Some(BadAckNum)
    ensures Refuses(c, c.OnFin(p.header.seqNum, p.body), Refusal(c, p))
  {
  }

  lemma DispatchRefuses(c: Conn, p: Packet)
    requires c.Valid() && IsOpen(c) && Refusal(c, p) != Some(BadAckNum)
    ensures Refuses(c, c.Dispatch(p), Refusal(c, p))
  {
    match p.header.ptype
    case Syn =>
    case State =>
    case Data => DataRefuses(c, p);
    case Fin => FinRefuses(c, p);
    case Reset =>
  }

  lemma DispatchPasses(c: Conn, p: Packet)
    requires c.Valid() && IsOpen(c) && Refusal(c, p) == Some(BadAckNum)
    ensures var d := c.Dispatch(p);
            && d.stateType == Connected && d.err.None? && d.bufs.Some? && d.LocalFin() == c.LocalFin()
            && d.bufs.value.sent == c.bufs.value.sent
  {
    if p.header.ptype == Data && c.RemoteFin().Some? {
      ContainsIsDistance(c.bufs.value.recv.init, c.RemoteFin().value, p.header.seqNum);
    }
  }

  lemma DispatchLeavesList(c: Conn, p: Packet)
    requires c.Valid() && c.stateType == Connected
    ensures c.Dispatch(p).bufs.Some? && c.Dispatch(p).bufs.value.sent == c.bufs.value.sent
  {
  }

  lemma AcknowledgePasses(c: Conn, d: Conn, p: Packet, clock: Clock)
    requires c.Valid() && d.Valid() && d.err.None? && d.stateType != Closed
    requires d.stateType == Connected ==> !AcksUnsent(d, p)
    ensures d.Acknowledge(p, clock).stateType == d.stateType && d.Acknowledge(p, clock).err.None?
  {
    if d.stateType == Connected {
      OnAckEffect(d.bufs.value.sent, p.header.ackNum, p.eack, p.header.tsDiff * 1000, clock);
    }
  }

  lemma AcknowledgeRefuses(c: Conn, d: Conn, p: Packet, clock: Clock)
    requires d.Valid() && d.err.None? && d.LocalFin() == c.LocalFin() && AcksUnsent(d, p)
    requires p.header.ptype in {State, Data, Fin}
    ensures Refuses(c, d.Acknowledge(p, clock), Some(BadAckNum))
  {
    OnAckEffect(d.bufs.value.sent, p.header.ackNum, p.eack, p.header.tsDiff * 1000, clock);
  }

  lemma AcknowledgeClosed(d: Conn, p: Packet, clock: Clock)
    requires d.Valid() && d.stateType == Closed
    ensures d.Acknowledge(p, clock) == d
  {
  }

  lemma RefusalFrame(c: Conn, wnd: u32, lag: int, p: Packet)
    requires c.Valid() && IsOpen(c)
    ensures var c1 := c.(peerRecvWindow := wnd, peerTsDiff := lag);
            c1.Valid() && IsOpen(c1) && Refusal(c1, p) == Refusal(c, p) && c1.LocalFin() == c.LocalFin()
  {
    var c1 := c.(peerRecvWindow := wnd, peerTsDiff := lag);
    assert AcksUnsent(c1, p) == AcksUnsent(c, p) && BeyondFin(c1, p) == BeyondFin(c, p);
  }

  lemma ObserveRefusesNothing(c: Conn, p: Packet, clock: Clock)
    requires c.Valid() && IsOpen(c)
    ensures var c1 := c.Observe(p, clock);
            c1.Valid() && IsOpen(c1) && Refusal(c1, p) == Refusal(c, p) && c1.LocalFin() == c.LocalFin()
  {
    var c1 := c.Observe(p, clock);
    RefusalFrame(c, c1.peerRecvWindow, c1.peerTsDiff, p);
  }

  lemma PassedIsAcknowledged(c: Conn, p: Packet, clock: Clock)
    requires c.Valid() && IsOpen(c) && Refusal(c, p).None?
    ensures c.Dispatch(p).Valid() && Refuses(c, c.Dispatch(p).Acknowledge(p, clock), None)
  {
    DispatchIsValid(c, p);
    DispatchRefuses(c, p);
    if c.stateType == Connected {
      DispatchLeavesList(c, p);
    }
    if p.header.ptype != Syn {
      AcknowledgePasses(c, c.Dispatch(p), p, clock);
    }
  }

  lemma DispatchThenAckRefuses(c: Conn, p: Packet, clock: Clock)
    requires c.Valid() && IsOpen(c)
    ensures c.Dispatch(p).Valid() && Refuses(c, c.Dispatch(p).Acknowledge(p, clock), Refusal(c, p))
  {
    DispatchIsValid(c, p);
    var d := c.Dispatch(p);
    if Refusal(c, p).None? {
      PassedIsAcknowledged(c, p, clock);
    } else if Refusal(c, p) == Some(BadAckNum) {
      DispatchPasses(c, p);
      AcknowledgeRefuses(c, d, p, clock);
    } else {
      DispatchRefuses(c, p);
      AcknowledgeClosed(d, p, clock);
    }
  }

  /** A packet closes the connection before it is answered exactly if it is refused, and with the error for that. */
  lemma HandledRefuses(c: Conn, p: Packet, clock: Clock)
    requires c.Valid() && IsOpen(c)
    ensures Refuses(c, c.Handled(p, clock), Refusal(c, p))
  {
    ObserveRefusesNothing(c, p, clock);
    DispatchThenAckRefuses(c.Observe(p, clock), p, clock);
  }

  // ---------------------------------------------------------------- closing

  lemma {:induction false} SameGap(a: seq<SentPacket>, b: seq<SentPacket>)
    requires |a| == |b| && forall k :: 0 <= k < |a| ==> (a[k].Acked() <==> b[k].Acked())
    ensures Gap(a) == Gap(b)
    decreases |a|
  {
    if a != [] && a[0].Acked() {
      SameGap(a[1..], b[1..]);
    }
  }

  /** The endpoint is done: its FIN is acked; all it sent is and the peer's FIN is reached; or both FINs are there. */
  predicate Finished(c: Conn) {
    && c.stateType == Connected && c.bufs.Some?
    && var s, r := c.bufs.value.sent, c.bufs.value.recv;
       || (c.LocalFin().Some? && s.LastAckNum() == c.LocalFin())
       || (c.RemoteFin().Some? && Gap(s.packets) == |s.packets| && r.AckNum() == c.RemoteFin().value)
       || (c.LocalFin().Some? && c.RemoteFin().Some?)
  }

  /** With nothing but times changed, an endpoint is done if it was. */
  lemma FinishedFrame(c: Conn, c1: Conn)
    requires c1.stateType == c.stateType && c1.closing == c.closing && (c1.bufs.Some? <==> c.bufs.Some?)
    requires c.bufs.Some? ==>
               && c1.bufs.value.recv == c.bufs.value.recv
               && SameAcks(c.bufs.value.sent.packets, c1.bufs.value.sent.packets)
    ensures Finished(c1) <==> Finished(c)
  {
    if c.bufs.Some? {
      SameGap(c.bufs.value.sent.packets, c1.bufs.value.sent.packets);
    }
  }

  lemma ConcludeCloses(c: Conn)
    requires c.Valid() && c.stateType != Closed && c.err.None?
    ensures (c.Conclude().stateType == Closed <==> Finished(c)) && c.Conclude().err.None?
  {
    if c.stateType == Connected {
      FirstUnackedIsGap(c.bufs.value.sent);
      DeliverKeepsState(c);
    }
  }

  lemma RespondChangesNothing(c: Conn, p: Packet, clock: Clock)
    requires c.Valid()
    ensures var c1 := c.Respond(p, clock); c1 == c.(synState := c1.synState, out := c1.out)
  {
  }

  /** Answering leaves what was received, what is acked, the window and the status alone. */
  predicate Untouched(h: Conn, c: Conn) {
    && c.stateType == h.stateType && c.err == h.err && c.closing == h.closing && (c.bufs.Some? <==> h.bufs.Some?)
    && (h.bufs.Some? ==>
         && c.bufs.value.recv == h.bufs.value.recv
         && c.bufs.value.sent.ctrl.maxWindow == h.bufs.value.sent.ctrl.maxWindow
         && SameAcks(h.bufs.value.sent.packets, c.bufs.value.sent.packets))
  }

  lemma ReplyChangesNothing(h: Conn, p: Packet, clock: Clock)
    requires h.Valid() && h.CanRetransmit()
    ensures Untouched(h, h.RetransmitLost(clock).Respond(p, clock))
  {
    if h.stateType == Connected {
      ResendAllCounts(h, h.bufs.value.sent.lost, clock);
    }
    RespondChangesNothing(h.RetransmitLost(clock), p, clock);
  }

  lemma ConcludeClosed(c: Conn)
    requires c.Valid() && c.stateType == Closed
    ensures c.Conclude() == c
  {
  }

  /**
   * What a packet does to the life of a connection. It ends it with an error exactly if the packet is refused, and
   * without one exactly if the endpoint is done once it is taken in. A RESET is always refused.
   */
  lemma OnPacketEnds(c: Conn, p: Packet, clock: Clock)
    requires c.Valid() && IsOpen(c) && CanHandle(c, p, clock)
    ensures var c1 := c.OnPacket(p, clock);
            match Refusal(c, p)
            case Some(r) => c1.stateType == Closed && c1.err == ErrorFor(c, r)
            case None => c1.err.None? && (c1.stateType == Closed <==> Finished(c.Handled(p, clock)))
  {
    var h := c.Handled(p, clock);
    HandledRefuses(c, p, clock);
    ReplyChangesNothing(h, p, clock);
    var c2 := h.RetransmitLost(clock).Respond(p, clock);
    FinishedFrame(h, c2);
    if h.stateType == Closed {
      ConcludeClosed(c2);
    } else {
      ConcludeCloses(c2);
    }
  }

  /** A RESET ends the connection; it is an error unless our FIN is out. */
  lemma ResetEnds(c: Conn, p: Packet, clock: Clock)
    requires c.Valid() && IsOpen(c) && CanHandle(c, p, clock) && p.header.ptype == Reset
    ensures var c1 := c.OnPacket(p, clock);
            c1.stateType == Closed && c1.err == if c.LocalFin().None? then Some(PeerReset) else None
  {
    OnPacketEnds(c, p, clock);
  }

  /** The idle timer ends it with a timeout. */
  lemma IdleEnds(c: Conn)
    requires c.stateType != Closed
    ensures c.OnIdle().stateType == Closed && c.OnIdle().err == Some(TimeOut)
  {
  }

  /** What is known of the peer is what its last packet said, whatever kind of packet it was. */
  lemma OnPacketObserves(c: Conn, p: Packet, clock: Clock)
    requires c.Valid() && CanHandle(c, p, clock)
    ensures var c1 := c.OnPacket(p, clock); var diff := clock.micros - p.header.tsDiff;
            && c1.peerRecvWindow == p.header.wnd
            && c1.peerTsDiff == if diff * 1000 > c.cfg.maxIdleTimeout then 1_000_000 else diff
  {
    OnPacketAnswersNothing(c, p, clock);
  }

  /** An initiator is connected by the first STATE that acks its SYN, and by nothing else. */
  lemma ConnectsIff(c: Conn, p: Packet, clock: Clock)
    requires c.Valid() && IsOpen(c) && c.stateType == Connecting && c.endpoint.role == Initiator
    requires CanHandle(c, p, clock)
    ensures var c1 := c.OnPacket(p, clock);
            && (c1.stateType == Connected <==> p.header.ptype == State && p.header.ackNum == c.endpoint.synNum)
            && (c1.stateType == Connected ==>
                 && c1.bufs.Some? && c1.bufs.value.recv.init == Sub(p.header.seqNum, 1)
                 && c1.bufs.value.sent.init == c.endpoint.synNum && SentOf(c1.bufs) == []
                 && c1.bufs.value.recv.consumed == 0)
  {
    OnPacketEnds(c, p, clock);
    var h := c.Handled(p, clock);
    HandledRefuses(c, p, clock);
    ReplyChangesNothing(h, p, clock);
    var d := c.Observe(p, clock).Dispatch(p);
    if d.stateType == Connected {
      FreshIsValid(c.cfg, Sub(p.header.seqNum, 1), c.endpoint.synNum);
      OnAckEffect(d.bufs.value.sent, p.header.ackNum, p.eack, p.header.tsDiff * 1000, clock);
    }
  }

  /** Empty buffers of the configured size, and a window of two packets. */
  predicate StartsFresh(b: Buffers, cfg: Config) {
    && b.recv.size == b.send.size == cfg.bufferSize
    && b.recv.consumed == 0 && b.recv.buf == [] && b.recv.pending == map[] && b.send.pending == []
    && b.sent.packets == [] && b.sent.lost == {}
    && var c := b.sent.ctrl;
       && c.maxWindow == c.minWindow == 2 * cfg.maxPacketSize && c.window == 0 && c.maxInc == 1024 && c.gain == 1.0
       && c.target == cfg.targetDelay && c.timeout == cfg.initialTimeout && c.minTimeout == cfg.minTimeout
       && c.maxTimeout == cfg.maxTimeout && c.tx == map[] && c.samples == [] && c.delayWindow == 120_000_000_000
  }

  /** So an initiator starts with the STATE that connects it. */
  lemma InitiatorStartsFresh(c: Conn, p: Packet, clock: Clock)
    requires c.Valid() && IsOpen(c) && c.stateType == Connecting && c.endpoint.role == Initiator
    requires p.header.ptype == State && p.header.ackNum == c.endpoint.synNum
    ensures var h := c.Handled(p, clock); h.stateType == Connected && StartsFresh(h.bufs.value, c.cfg)
  {
    var d := c.Observe(p, clock).Dispatch(p);
    FreshIsValid(c.cfg, Sub(p.header.seqNum, 1), c.endpoint.synNum);
    OnAckEffect(d.bufs.value.sent, p.header.ackNum, p.eack, p.header.tsDiff * 1000, clock);
  }

  // ---------------------------------------------------------------- what is taken in

  /** The body of DATA and of the first FIN is written under its number. */
  ghost function TakenIn(c: Conn, p: Packet): RecvState
    requires c.bufs.Some? && c.bufs.value.Valid()
  {
    var r := c.bufs.value.recv;
    if p.header.ptype == Data || (p.header.ptype == Fin && c.RemoteFin().None?) then r.Write(p.body, p.header.seqNum)
    else r
  }

  /** The first FIN counts if there is room for its body, or its number is known, or the user has asked to shut down. */
  ghost function FinAfter(c: Conn, p: Packet): Option<u16>
    requires c.bufs.Some?
  {
    var r := c.bufs.value.recv;
    if p.header.ptype == Fin && c.RemoteFin().None?
       && (c.closing.Some? || r.WasWritten(p.header.seqNum) || |p.body| <= r.Available())
    then Some(p.header.seqNum) else c.RemoteFin()
  }

  lemma DispatchTakes(c: Conn, p: Packet)
    requires c.Valid() && IsOpen(c) && c.stateType == Connected && Refusal(c, p) in {None, Some(BadAckNum)}
    ensures var d := c.Dispatch(p);
            d.bufs.Some? && d.bufs.value.recv == TakenIn(c, p) && d.RemoteFin() == FinAfter(c, p)
  {
    if p.header.ptype == Data && c.RemoteFin().Some? {
      ContainsIsDistance(c.bufs.value.recv.init, c.RemoteFin().value, p.header.seqNum);
    }
  }

  lemma AcknowledgeTakesNothing(c: Conn, p: Packet, clock: Clock)
    requires c.Valid() && c.bufs.Some?
    ensures var d := c.Acknowledge(p, clock);
            d.bufs.Some? && d.bufs.value.recv == c.bufs.value.recv && d.closing == c.closing
  {
  }

  lemma ObserveTakesNothing(c: Conn, p: Packet, clock: Clock)
    requires c.Valid() && c.bufs.Some?
    ensures var o := c.Observe(p, clock); TakenIn(o, p) == TakenIn(c, p) && FinAfter(o, p) == FinAfter(c, p)
  {
  }

  lemma HandledTakes(c: Conn, p: Packet, clock: Clock)
    requires c.Valid() && IsOpen(c) && c.stateType == Connected && Refusal(c, p) in {None, Some(BadAckNum)}
    ensures var h := c.Handled(p, clock);
            h.bufs.Some? && h.bufs.value.recv == TakenIn(c, p) && h.RemoteFin() == FinAfter(c, p)
  {
    var o := c.Observe(p, clock);
    ObserveRefusesNothing(c, p, clock);
    ObserveTakesNothing(c, p, clock);
    DispatchTakes(o, p);
    DispatchIsValid(o, p);
    AcknowledgeTakesNothing(o.Dispatch(p), p, clock);
  }

  lemma DrainedTakesNothing(c: Conn)
    requires c.Valid() && c.bufs.Some?
    ensures var c1 := c.CloseIfDrained();
            && c1.closing == c.closing && c1.bufs.Some?
            && c1.bufs.value.recv == c.bufs.value.recv.(buf := c1.bufs.value.recv.buf)
            && (c1.stateType == Connected ==> c1 == c)
  {
    if c.stateType == Connected {
      DeliverKeepsState(c);
    }
  }

  lemma ConcludeTakesNothing(c: Conn)
    requires c.Valid() && c.bufs.Some?
    ensures var c1 := c.Conclude();
            && c1.closing == c.closing && c1.bufs.Some?
            && c1.bufs.value.recv == c.bufs.value.recv.(buf := c1.bufs.value.recv.buf)
            && (c1.stateType == Connected ==> c1.bufs == c.bufs)
  {
    DrainedTakesNothing(c.CloseIfAcked());
  }

  /**
   * A packet that is not refused has its body written under its number, if it is DATA or the first FIN, and its number
   * noted, if it is that FIN. Nothing is read before the connection closes.
   */
  lemma OnPacketTakes(c: Conn, p: Packet, clock: Clock)
    requires c.Valid() && IsOpen(c) && c.stateType == Connected && CanHandle(c, p, clock) && Refusal(c, p).None?
    ensures var c1 := c.OnPacket(p, clock);
            && c1.bufs.Some? && c1.RemoteFin() == FinAfter(c, p)
            && c1.bufs.value.recv == TakenIn(c, p).(buf := c1.bufs.value.recv.buf)
            && (c1.stateType == Connected ==> c1.bufs.value.recv == TakenIn(c, p))
  {
    var h := c.Handled(p, clock);
    HandledTakes(c, p, clock);
    ReplyChangesNothing(h, p, clock);
    ConcludeTakesNothing(h.RetransmitLost(clock).Respond(p, clock));
  }

  // ---------------------------------------------------------------- the first packets

  /** An initiator starts with one SYN, to the number at which it will be answered. */
  lemma DialSendsSyn(cfg: Config, cidSend: u16, cidRecv: u16, synNum: u16, clock: Clock)
    ensures var c := Dial(cfg, cidSend, cidRecv, synNum, clock);
            && IsOpen(c) && c.stateType == Connecting && |c.out| == 1
            && var h := c.out[0].header;
               && h.ptype == Syn && h.connId == cidRecv && h.seqNum == synNum && h.ackNum == 0 && h.tsDiff == 0
               && h.wnd == cfg.windowSize && h.timestamp == Wrap32(clock.micros) && c.out[0].body == []
  {
  }

  /** An acceptor is up at once, and starts with the STATE that acks the SYN and tells its own first number. */
  lemma AcceptSendsState(cfg: Config, cidSend: u16, cidRecv: u16, syn: Packet, synAck: u16, clock: Clock)
    ensures var c := Accept(cfg, cidSend, cidRecv, syn, synAck, clock);
            && IsOpen(c) && c.stateType == Connected && |c.out| == 1 && c.peerRecvWindow == syn.header.wnd
            && c.bufs.Some? && c.bufs.value.recv.init == syn.header.seqNum && c.bufs.value.sent.NextSeqNum() == synAck
            && StartsFresh(c.bufs.value, cfg)
            && var h := c.out[0].header;
               && h.ptype == State && h.connId == cidSend && h.seqNum == synAck && h.ackNum == syn.header.seqNum
               && h.tsDiff == Wrap32(clock.micros - syn.header.timestamp) && h.wnd == cfg.windowSize
               && h.timestamp == Wrap32(clock.micros) && c.out[0].body == []
  {
  }

  // ---------------------------------------------------------------- reading

  /** Behind the old events there are chunks, none of them empty or too large, and nothing else. */
  predicate OnlyChunks(told: seq<ReadEvent>, more: seq<ReadEvent>, most: nat) {
    told <= more && forall k :: |told| <= k < |more| ==> more[k].Chunk? && 0 < |more[k].data| <= most
  }

  lemma {:induction false} DeliverTellsChunks(c: Conn)
    requires c.bufs.Some? && c.cfg.maxPacketSize > 0
    ensures OnlyChunks(c.readOut, c.Deliver().readOut, c.cfg.maxPacketSize) && c.Deliver().bufs.Some?
    ensures c.Deliver().bufs.value.recv == c.bufs.value.recv.(buf := [])
    decreases |c.bufs.value.recv.buf|
  {
    if Min(c.cfg.maxPacketSize, |c.bufs.value.recv.buf|) != 0 {
      DeliverTellsChunks(c.HandOver());
    }
  }

  /**
   * Serving the reader hands over all readable bytes, in chunks, and then tells the end of the stream exactly if the
   * peer's FIN is reached.
   */
  lemma ProcessReadsTells(c: Conn)
    requires c.Valid() && c.stateType == Connected && c.cfg.maxPacketSize > 0
    ensures var c1 := c.ProcessReads(); var reached := c.RemoteFin() == Some(c.bufs.value.recv.AckNum());
            var n := |c1.readOut| - (if reached then 1 else 0);
            && |c.readOut| <= n && OnlyChunks(c.readOut, c1.readOut[..n], c.cfg.maxPacketSize)
            && (reached ==> c1.readOut[n] == Eof)
            && BytesRead(c1.readOut[..n]) == BytesRead(c.readOut) + c.bufs.value.recv.buf
            && c1.bufs.Some? && c1.bufs.value.recv == c.bufs.value.recv.(buf := [])
  {
    DeliverTellsChunks(c);
    DeliverKeepsState(c);
    DeliverReadsAll(c);
    var c1 := c.Deliver();
    assert c1.readOut[..|c1.readOut|] == c1.readOut && (c1.readOut + [Eof])[..|c1.readOut|] == c1.readOut;
  }

  // ---------------------------------------------------------------- writing and shutting down

  /** A write is taken unless the connection has ended, its own end was asked for, or its FIN is out. */
  predicate TakesWrites(c: Conn) {
    || c.stateType == Connecting
    || (c.stateType == Connected && (c.closing.None? || (c.LocalFin().None? && c.RemoteFin().Some?)))
  }

  /** It is queued as it is, or it is told at once that it is not taken. */
  lemma OnWriteTakesIff(c: Conn, id: nat, data: seq<u8>, clock: Clock)
    requires c.Valid() && c.HasNumbers()
    ensures var c1 := c.OnWrite(id, data, clock);
            if TakesWrites(c) then c1.accepted == c.accepted + [QueuedWrite(id, data, 0)]
            else && c1.accepted == c.accepted && c.results < c1.results
                 && c1.results[|c.results|] == if c.stateType == Closed then Failed(id, c.err) else Refused(id)
  {
    var c0 := c.Enqueue(id, data);
    ProcessWritesKeepsStatus(c0, clock);
    ProcessWritesAddsResults(c0, clock);
  }

  lemma ProcessWritesAddsResults(c: Conn, clock: Clock)
    requires c.Valid() && c.HasNumbers()
    ensures c.results <= c.ProcessWrites(clock).results
  {
    if c.stateType == Connected {
      var sent := ProcessWritesFlushes(c, clock);
      RefillAddsResults(c.NextPayloads().send, c.pendingWrites, c.results);
    }
  }

  lemma {:induction false} RefillAddsResults(send: SendState, writes: seq<QueuedWrite>, results: seq<WriteResult>)
    requires send.Valid()
    ensures results <= Refill(send, writes, results).results
    decreases |writes|
  {
    if writes != [] && send.Available() > 0 {
      var w := writes[0];
      if |w.data| <= send.Available() {
        RefillWhole(send, writes, results);
        RefillAddsResults(send.Write(w.data), writes[1..], results + [Written(w.id, |w.data| + w.written)]);
      } else {
        RefillPart(send, writes, results);
      }
    }
  }

  /** Nothing waits to be sent. */
  predicate NothingWaits(c: Conn) {
    c.pendingWrites == [] && (c.bufs.Some? ==> c.bufs.value.send.pending == [])
  }

  /**
   * Shutting down sends the FIN at once, under the next number, exactly if nothing waits and none was sent; otherwise
   * it notes the wish, and sends nothing.
   */
  lemma ShutdownSendsFinIff(c: Conn, clock: Clock)
    requires c.Valid() && c.stateType == Connected && c.CanFin()
    ensures var c1 := c.Shutdown(clock);
            && c1.stateType == Connected && c1.closing.Some? && c1.RemoteFin() == c.RemoteFin()
            && if c.LocalFin().None? && NothingWaits(c) then
                 && c1.LocalFin() == Some(c.bufs.value.sent.NextSeqNum()) && |c1.out| == |c.out| + 1 && c.out <= c1.out
                 && var fin := c1.out[|c.out|];
                    && fin.header.ptype == Fin && fin.header.seqNum == c.bufs.value.sent.NextSeqNum() && fin.body == []
                    && Describes(fin, c.bufs.value.recv, c.cidSend, clock.micros)
               else c1.LocalFin() == c.LocalFin() && c1.out == c.out
  {
    if c.WantsFin() {
      FinFits(c, clock);
    }
  }

  // ---------------------------------------------------------------- timeouts

  /** The last timeout that counted was longer ago than the timeout, or there was none. */
  predicate TimeoutCounts(c: Conn, clock: Clock)
    requires c.bufs.Some?
  {
    c.latestTimeout.None? || clock.wall - c.latestTimeout.value > c.bufs.value.sent.ctrl.timeout
  }

  /**
   * A timer that fires for DATA or a FIN sends it again, with its number and its bytes and an up-to-date description of
   * what was received. If it counts as a timeout, the window falls to the minimum and the timeout doubles, up to its
   * maximum; otherwise both stay as they are. Nothing else changes.
   */
  lemma OnTimeoutSends(c: Conn, p: Packet, clock: Clock)
    requires c.Valid() && c.stateType == Connected && c.CanResend(p) && p.header.ptype != Syn
    ensures var c1 := c.OnTimeout(p, clock); c1.bufs.Some? && c.out <= c1.out && |c1.out| == |c.out| + 1
    ensures var c1 := c.OnTimeout(p, clock); var ctrl, ctrl1 := c.bufs.value.sent.ctrl, c1.bufs.value.sent.ctrl;
            var again := c1.out[|c.out|];
            && again.header.ptype == p.header.ptype && again.header.seqNum == p.header.seqNum && again.body == p.body
            && Describes(again, c.bufs.value.recv, p.header.connId, clock.micros)
            && c1.bufs.value.recv == c.bufs.value.recv && c1.stateType == Connected && c1.closing == c.closing
            && if TimeoutCounts(c, clock) then
                 && ctrl1.maxWindow == ctrl.minWindow && ctrl1.timeout == Min(ctrl.timeout * 2, ctrl.maxTimeout)
                 && c1.latestTimeout == Some(clock.wall)
               else
                 && ctrl1.maxWindow == ctrl.maxWindow && ctrl1.timeout == ctrl.timeout
                 && c1.latestTimeout == c.latestTimeout
  {
    SlowedIsValid(c, clock);
    var c1 := c.Slowed(clock);
    RenewedFits(c1, p, clock);
    Retransmission(c1.bufs.value.sent, p.header.seqNum, p.header.ptype, p.body, clock.now);
  }

  /** One that fires for a SYN that is not answered sends it again, or gives up after as many as are allowed. */
  lemma SynTimeoutRetries(c: Conn, p: Packet, clock: Clock)
    requires c.Valid() && c.stateType == Connecting && c.endpoint.role == Initiator && c.CanResend(p)
    ensures var c1 := c.OnTimeout(p, clock);
            if c.endpoint.attempts < c.cfg.maxConnAttempts then
              && c1.stateType == Connecting && c1.endpoint == c.endpoint.(attempts := c.endpoint.attempts + 1)
              && |c1.out| == |c.out| + 1 && c.out <= c1.out
              && var syn := c1.out[|c.out|];
                 syn.header.ptype == Syn && syn.header.seqNum == c.endpoint.synNum && syn.header.connId == c.cidRecv
            else c1.stateType == Closed && c1.err == Some(TimeOut) && c1.out == c.out
  {
  }
}
