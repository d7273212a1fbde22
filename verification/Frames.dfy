/** What the parts of a handler leave alone: what is sent, what is reported, and the status. */
module Frames {
  import opened Words
  import opened Packets
  import opened Sending
  import opened Connections
  import opened Writers

  /** No write is taken, and the writers' memory is left alone. */
  predicate SameWrites(c: Conn, c1: Conn) {
    c1.accepted == c.accepted && c1.drafts == c.drafts
  }

  /** Nothing is sent, and no write is taken, moved or answered. */
  predicate Silent(c: Conn, c1: Conn) {
    c1.out == c.out && c1.results == c.results && c1.pendingWrites == c.pendingWrites && SameWrites(c, c1)
  }

  /** No write is taken or answered, and the status, the error and the FINs are the same. */
  predicate Unmoved(c: Conn, c1: Conn) {
    && c1.results == c.results && SameWrites(c, c1)
    && c1.stateType == c.stateType && c1.err == c.err && c1.closing == c.closing
  }

  /** The peer's window and lag are as they were last told. */
  predicate SamePeer(c: Conn, c1: Conn) {
    c1.peerTsDiff == c.peerTsDiff && c1.peerRecvWindow == c.peerRecvWindow
  }

  /** The reader is told nothing, there are buffers if there were, and nothing new is known of the peer. */
  predicate Untold(c: Conn, c1: Conn) {
    c1.readOut == c.readOut && (c1.bufs.Some? <==> c.bufs.Some?) && SamePeer(c, c1)
  }

  lemma DispatchFrame(c: Conn, p: Packet)
    requires c.Valid()
    ensures var d := c.Dispatch(p);
            d == c.(stateType := d.stateType, err := d.err, closing := d.closing, bufs := d.bufs)
  {
  }

  lemma DispatchIsSilent(c: Conn, p: Packet)
    requires c.Valid()
    ensures Silent(c, c.Dispatch(p)) && c.Dispatch(p).readOut == c.readOut && SamePeer(c, c.Dispatch(p))
  {
    DispatchFrame(c, p);
  }

  lemma AcknowledgeIsSilent(c: Conn, p: Packet, clock: Clock)
    requires c.Valid()
    ensures Silent(c, c.Acknowledge(p, clock)) && Untold(c, c.Acknowledge(p, clock))
  {
  }

  lemma HandledIsSilent(c: Conn, p: Packet, clock: Clock)
    requires c.Valid()
    ensures Silent(c, c.Handled(p, clock)) && SamePeer(c.Observe(p, clock), c.Handled(p, clock))
  {
    DispatchIsSilent(c.Observe(p, clock), p);
    DispatchIsValid(c.Observe(p, clock), p);
    AcknowledgeIsSilent(c.Observe(p, clock).Dispatch(p), p, clock);
  }

  lemma ProcessReadsIsSilent(c: Conn)
    requires c.Valid()
    ensures Silent(c, c.ProcessReads()) && Unmoved(c, c.ProcessReads()) && SamePeer(c, c.ProcessReads())
  {
    if c.stateType == Connected {
      DeliverKeepsState(c);
    }
  }

  lemma ConcludeIsSilent(c: Conn)
    requires c.Valid()
    ensures Silent(c, c.Conclude()) && SamePeer(c, c.Conclude())
  {
    ProcessReadsIsSilent(c.CloseIfAcked());
  }

  lemma {:induction false} ResendAllIsUnmoved(c: Conn, lost: set<u16>, clock: Clock)
    requires c.Valid() && c.Resendable(lost)
    ensures Unmoved(c, c.ResendAll(lost, clock)) && Untold(c, c.ResendAll(lost, clock))
    decreases |lost|
  {
    if lost != {} {
      var q := Smallest(lost);
      ResendNext(c, lost, q, clock);
      ResendAllIsUnmoved(c.Transmit(c.Repeat(q, clock), clock), lost - {q}, clock);
    }
  }

  lemma RespondIsUnmoved(c: Conn, p: Packet, clock: Clock)
    requires c.Valid()
    ensures Unmoved(c, c.Respond(p, clock)) && Untold(c, c.Respond(p, clock))
  {
    var d := c.Respond(p, clock);
    assert d == c.(synState := d.synState, out := d.out);
  }

  /** Retransmitting and answering leave all but the packets sent as it is. */
  lemma ReplyIsUnmoved(c: Conn, p: Packet, clock: Clock)
    requires c.Valid() && c.CanRetransmit()
    ensures var c1 := c.RetransmitLost(clock).Respond(p, clock); Unmoved(c, c1) && Untold(c, c1)
  {
    if c.stateType == Connected {
      ResendAllIsUnmoved(c, c.bufs.value.sent.lost, clock);
    }
    RespondIsUnmoved(c.RetransmitLost(clock), p, clock);
  }

  /** Handling a packet takes and answers no write. */
  lemma OnPacketAnswersNothing(c: Conn, p: Packet, clock: Clock)
    requires c.Valid() && c.Handled(p, clock).CanRetransmit()
    ensures c.OnPacket(p, clock).results == c.results && SameWrites(c, c.OnPacket(p, clock))
    ensures SamePeer(c.Observe(p, clock), c.OnPacket(p, clock))
  {
    HandledIsSilent(c, p, clock);
    ReplyIsUnmoved(c.Handled(p, clock), p, clock);
    ConcludeIsSilent(c.Handled(p, clock).RetransmitLost(clock).Respond(p, clock));
  }

  lemma ProcessWritesKeepsStatus(c: Conn, clock: Clock)
    requires c.Valid() && c.HasNumbers()
    ensures Unmoved(c, c.ProcessWrites(clock).(results := c.results)) && Untold(c, c.ProcessWrites(clock))
  {
    if c.stateType == Connected {
      var sent := ProcessWritesFlushes(c, clock);
    }
  }
}
