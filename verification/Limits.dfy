/** Where the code falls short of its promises, and exactly when. */
module Limits {
  import opened Words
  import opened Collections
  import opened Packets
  import opened ReceiveBuffers
  import opened Sending
  import opened Connections
  import opened Invariants
  import opened Handlers
  import opened Arrivals
  import opened Theorems

  // ---------------------------------------------------------------- retransmissions after a timeout

  /**
   * The packet sent again on a timeout survives the wire exactly if it is as it was: with, or without, out-of-order
   * data.
   */
  lemma RenewedAgreesIff(c: Conn, p: Packet, clock: Clock)
    requires c.bufs.Some? && p.header.extension <= 1
    ensures ExtensionAgrees(c.Renewed(p, clock)) <==> (p.header.extension == 1 <==> c.bufs.value.recv.pending != map[])
  {
  }

  /**
   * What an intact DATA packet is worth: its payload is there, and the next read hands over exactly the payloads of the
   * peer up to the first number that is still missing.
   */
  lemma ArrivedDataIsRead(c: Conn, p: Packet, d: Conn)
    requires Arrives(c, p, d) && Assembled(c, d) && c.stateType == Connected && p.header.ptype == Data
    requires ExtensionAgrees(p)
    ensures var c1 := c.OnData(p.header.seqNum, FromWire(p).value.body);
            && c1.stateType == Connected && c1.bufs.Some?
            && var r := c1.bufs.value.recv;
               && (r.WasWritten(p.header.seqNum) <==>
                   c.bufs.value.recv.WasWritten(p.header.seqNum) || |p.body| <= c.bufs.value.recv.Available())
               && r.consumed <= |SentOf(d.bufs)| < 0xFFFF && !r.WasWritten(Number(r.init, r.consumed))
               && BytesRead(c1.Deliver().readOut) == Stream(SentOf(d.bufs)[..r.consumed])
  {
    assert Genuine(d.endpoint, d.bufs, p);
    CarriedIsPayload(p, d, p.body);
    IntactIff(p);
    var c1 := c.OnData(p.header.seqNum, p.body);
    DataStaysRightIff(c, p, d);
    OnDataIsReceive(c, p.header.seqNum, p.body, d);
    WriteRecords(c.bufs.value.recv, p.body, p.header.seqNum);
    ReadIsStream(d.endpoint, SentOf(d.bufs), c1.bufs, c1.readOut);
    DeliverReadsAll(c1);
    FirstMissing(c1.bufs.value.recv);
  }

  lemma OnDataIsReceive(c: Conn, q: u16, body: seq<u8>, d: Conn)
    requires Pair(c, d) && c.stateType == Connected && body != [] && IsSent(d, q)
    ensures c.OnData(q, body) == c.Receive(q, body)
  {
    SentIsBeforeFin(c, q, d);
  }

  /** The number after those consumed has not been received. */
  lemma FirstMissing(r: RecvState)
    requires r.Valid() && r.consumed < 0xFFFF
    ensures !r.WasWritten(Number(r.init, r.consumed))
  {
    WrittenIsWithinReach(r, Number(r.init, r.consumed));
  }

  // ---------------------------------------------------------------- closing

  /** With its own FIN sent, an endpoint has nothing unacked only if that FIN is acked. */
  lemma AllAckedMeansFinAcked(c: Conn)
    requires Local(c) && c.LocalFin().Some? && c.bufs.Some? && c.bufs.value.sent.FirstUnacked().None?
    ensures c.bufs.value.sent.LastAckNum() == c.LocalFin()
  {
    var s := c.bufs.value.sent;
    assert Placed(s.packets, |s.packets| - 1, c.LocalFin());
  }

  /** Handing over bytes only adds to what the reader was given. */
  lemma {:induction false} DeliverAdds(c: Conn)
    requires c.bufs.Some?
    ensures c.readOut <= c.Deliver().readOut
    decreases |c.bufs.value.recv.buf|
  {
    if Min(c.cfg.maxPacketSize, |c.bufs.value.recv.buf|) != 0 {
      DeliverAdds(c.HandOver());
    }
  }

  /** When a packet ends a connection, the reader is told exactly if no FIN of our own is out. */
  lemma ReaderToldIff(c: Conn)
    requires Local(c) && c.stateType == Connected
    ensures c.Conclude().readOut != c.readOut <==>
            && c.LocalFin().None? && c.RemoteFin().Some? && c.bufs.value.sent.FirstUnacked().None?
            && c.bufs.value.recv.AckNum() == c.RemoteFin().value
  {
    if c.LocalFin().Some? && c.bufs.value.sent.FirstUnacked().None? {
      AllAckedMeansFinAcked(c);
    }
    DeliverKeepsState(c);
    DeliverAdds(c);
  }

  /**
   * Once both FINs are there the connection closes without an error and does nothing else: whatever is missing
   * before the peer's FIN, whatever is buffered and unread, and whatever is unacked.
   */
  lemma BothFinsClose(c: Conn)
    requires Local(c) && c.stateType == Connected && c.LocalFin().Some? && c.RemoteFin().Some?
    ensures c.Conclude() == c.(stateType := Closed, err := None)
  {
    if c.bufs.value.sent.FirstUnacked().None? {
      AllAckedMeansFinAcked(c);
    }
  }

  /** And the loop then ends: what was readable when both FINs were there is never handed over. */
  lemma UnreadIsLost(c: Conn, shutdown: bool, clock: Clock)
    requires Local(c) && c.stateType == Connected && c.LocalFin().Some? && c.RemoteFin().Some?
    ensures var closed := c.(stateType := Closed, err := None);
            && c.Conclude() == closed
            && var d := closed.AfterEvent(shutdown, clock);
               d.stateType == Closed && d.readOut == c.readOut && d.bufs == c.bufs
  {
    BothFinsClose(c);
  }

  // ---------------------------------------------------------------- a FIN after a timeout

  /** The timeout shrinks the window to its minimum. */
  predicate Slows(c: Conn, clock: Clock)
    requires c.bufs.Some?
  {
    c.latestTimeout.None? || clock.wall - c.latestTimeout.value > c.bufs.value.sent.ctrl.timeout
  }

  /**
   * After a timeout a FIN, although it has no bytes, can be sent if and only if what is in flight fits the window that
   * the timeout has left; otherwise its transmission panics.
   */
  lemma FinAfterTimeoutIff(c: Conn, p: Packet, clock: Clock)
    requires c.Valid() && c.stateType == Connected && c.CanResend(p) && p.header.ptype != Syn
    ensures c.OnTimeout(p, clock).bufs.Some?
    ensures var s, ctrl := c.OnTimeout(p, clock).bufs.value.sent, c.bufs.value.sent.ctrl;
            s.CanTransmit(s.NextSeqNum(), 0) <==>
              ctrl.window <= if Slows(c, clock) then ctrl.minWindow else ctrl.maxWindow
  {
    SlowedIsValid(c, clock);
    var c1 := c.Slowed(clock);
    RenewedFits(c1, p, clock);
    Retransmission(c1.bufs.value.sent, p.header.seqNum, p.header.ptype, p.body, clock.now);
    FreshPanicsIff(c.OnTimeout(p, clock).bufs.value.sent, 0);
  }
}
