/** What arrives, and exactly when it spoils what is assembled or what is taken for acked. */
module Arrivals {
  import opened Words
  import opened Collections
  import opened Packets
  import opened Sending
  import opened Connections
  import opened Invariants
  import opened Handlers
  import opened Trust

  /** Packet p of the peer d arrives at c and can be decoded. */
  ghost predicate Arrives(c: Conn, p: Packet, d: Conn) {
    Pair(c, d) && p in d.out && WellFormed(p) && FromWire(p).Ok?
  }

  /** What comes off the wire has the header of what was sent. */
  lemma WireEchoes(p: Packet)
    requires Sendable(p) && FromWire(p).Ok?
    ensures Echoes(FromWire(p).value, p)
  {
    WireKeepsHeader(p);
  }

  /** What arrives is what was sent, exactly if its extension byte agrees with what it carries. */
  lemma IntactIff(p: Packet)
    requires Sendable(p) && FromWire(p).Ok? && (p.header.ptype == Data ==> p.body != [])
    ensures ExtensionAgrees(p) ==> FromWire(p).value == OnWire(p)
    ensures FromWire(p).value.body == p.body <==> ExtensionAgrees(p)
  {
    WireKeepsHeader(p);
    if ExtensionAgrees(p) {
      RoundTripIffExtensionAgrees(p);
    } else {
      MismatchChangesBody(p);
    }
  }

  /** The body is not taken. */
  ghost predicate Untaken(c: Conn, g: Packet)
    requires c.Valid()
  {
    c.stateType == Connected && (g.header.ptype == Data || (g.header.ptype == Fin && c.RemoteFin().None?)) ==>
      !c.bufs.value.recv.Accepts(g.body, g.header.seqNum)
  }

  lemma CarriedIsPayload(p: Packet, d: Conn, body: seq<u8>)
    requires Local(d) && p in d.out && (p.header.ptype == Data || p.header.ptype == Fin)
    ensures IsSent(d, p.header.seqNum) && (IsPayload(d, p.header.seqNum, body) <==> body == p.body)
    ensures p.header.ptype == Data ==> p.body != []
  {
    assert Genuine(d.endpoint, d.bufs, p);
    assert Placed(SentOf(d.bufs), Index(SendInit(d.endpoint), p.header.seqNum), d.LocalFin());
  }

  lemma StreamFitsIff(c: Conn, p: Packet, d: Conn)
    requires Arrives(c, p, d)
    ensures var g := FromWire(p).value; StreamFits(c, g, d) <==> ExtensionAgrees(p) || Untaken(c, g)
  {
    assert Genuine(d.endpoint, d.bufs, p);
    WireEchoes(p);
    if p.header.ptype == Data || p.header.ptype == Fin {
      CarriedIsPayload(p, d, FromWire(p).value.body);
      IntactIff(p);
    }
  }

  lemma IntactAcksFit(c: Conn, p: Packet, d: Conn)
    requires Arrives(c, p, d) && ExtensionAgrees(p)
    ensures AcksFit(c, FromWire(p).value, d)
  {
    assert Genuine(d.endpoint, d.bufs, p);
    if p.header.ptype == Data {
      CarriedIsPayload(p, d, p.body);
    }
    IntactIff(p);
    var g := FromWire(p).value;
    if (p.header.ptype == State || p.header.ptype == Data || p.header.ptype == Fin) && c.stateType == Connected
       && p.header.ackNum != c.bufs.value.sent.init {
      VouchedIsHeld(d.bufs.value, g, |SentOf(c.bufs)|);
    }
  }

  /** What arrives does the stream no harm: it cannot be decoded, is intact, or its body is not taken. */
  ghost predicate StreamSound(c: Conn, p: Packet)
    requires c.Valid()
  {
    WellFormed(p) && FromWire(p).Ok? ==> ExtensionAgrees(p) || Untaken(c, FromWire(p).value)
  }

  /** What arrives does the acks no harm: it cannot be decoded, is intact, or names only what d has received. */
  predicate AcksSound(c: Conn, p: Packet, d: Conn) {
    WellFormed(p) && FromWire(p).Ok? ==> ExtensionAgrees(p) || AcksFit(c, FromWire(p).value, d)
  }

  ghost predicate Sound(c: Conn, p: Packet, d: Conn)
    requires c.Valid()
  {
    StreamSound(c, p) && AcksSound(c, p, d)
  }

  // ---------------------------------------------------------------- one handler, exactly

  /**
   * A DATA packet leaves the stream right exactly if its extension byte agrees with what it carries, or the receiver
   * does not take its body. One that was sent before, and is sent again by a timeout after out-of-order data came in
   * (or ceased to wait), has the byte wrong.
   */
  lemma DataStaysRightIff(c: Conn, p: Packet, d: Conn)
    requires Arrives(c, p, d) && Assembled(c, d) && c.stateType == Connected && p.header.ptype == Data
    ensures var body := FromWire(p).value.body; var c1 := c.OnData(p.header.seqNum, body);
            Assembled(c1, d) <==> ExtensionAgrees(p) || !c.bufs.value.recv.Accepts(body, p.header.seqNum)
  {
    assert Genuine(d.endpoint, d.bufs, p);
    WireEchoes(p);
    StreamFitsIff(c, p, d);
    OnDataAssemblesIff(c, p.header.seqNum, FromWire(p).value.body, d);
  }

  /** The same of a FIN: its bytes, which should be none, are written to the stream too. */
  lemma FinStaysRightIff(c: Conn, p: Packet, d: Conn)
    requires Arrives(c, p, d) && Assembled(c, d) && c.stateType == Connected && c.RemoteFin().None?
    requires p.header.ptype == Fin
    ensures var body := FromWire(p).value.body; var c1 := c.OnFin(p.header.seqNum, body);
            Assembled(c1, d) <==> ExtensionAgrees(p) || !c.bufs.value.recv.Accepts(body, p.header.seqNum)
  {
    assert Genuine(d.endpoint, d.bufs, p);
    WireEchoes(p);
    StreamFitsIff(c, p, d);
    OnFinAssemblesIff(c, p.header.seqNum, FromWire(p).value.body, d);
  }

  /** What is taken for acked stays received exactly if the byte agrees, or the decoded bitmap names only what is. */
  lemma AcksStayHeldIff(c: Conn, p: Packet, delay: int, clock: Clock, d: Conn)
    requires Arrives(c, p, d) && Backed(c, d) && c.stateType == Connected
    requires p.header.ptype == State || p.header.ptype == Data || p.header.ptype == Fin
    ensures var g := FromWire(p).value; var c1 := c.ProcessAck(g.header.ackNum, g.eack, delay, clock);
            Backed(c1, d) <==> ExtensionAgrees(p) || BitmapFits(c, g, d)
  {
    assert Genuine(d.endpoint, d.bufs, p);
    WireEchoes(p);
    ProcessAckBacksIff(c, FromWire(p).value, delay, clock, d);
    if ExtensionAgrees(p) {
      IntactAcksFit(c, p, d);
    }
  }

  // ---------------------------------------------------------------- a whole packet, exactly

  /** A packet that arrives leaves what is assembled right if and only if it does the stream no harm. */
  lemma ArrivalAssemblesIff(c: Conn, p: Packet, clock: Clock, d: Conn)
    requires Arrives(c, p, d) && Assembled(c, d) && c.Handled(FromWire(p).value, clock).CanRetransmit()
    ensures Assembled(c.OnPacket(FromWire(p).value, clock), d) <==> StreamSound(c, p)
  {
    assert Genuine(d.endpoint, d.bufs, p);
    WireEchoes(p);
    var g := FromWire(p).value;
    StreamFitsIff(c, p, d);
    HandledAssemblesIff(c, g, p, clock, d);
    AnswerIsSame(c.Handled(g, clock), g, clock, d);
  }

  /** It leaves what is taken for acked backed if and only if it does the acks no harm. */
  lemma ArrivalBacksIff(c: Conn, p: Packet, clock: Clock, d: Conn)
    requires Arrives(c, p, d) && Backed(c, d) && c.Handled(FromWire(p).value, clock).CanRetransmit()
    ensures Backed(c.OnPacket(FromWire(p).value, clock), d) <==> AcksSound(c, p, d)
  {
    assert Genuine(d.endpoint, d.bufs, p);
    WireEchoes(p);
    var g := FromWire(p).value;
    HandledBacksIff(c, g, p, clock, d);
    AnswerIsSame(c.Handled(g, clock), g, clock, d);
    if ExtensionAgrees(p) {
      IntactAcksFit(c, p, d);
    }
  }
}
