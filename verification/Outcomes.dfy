/** What every turn of a run does: what it answers, what it sends at most, and how it ends a connection. */
module Outcomes {
  import opened Words
  import opened Collections
  import opened Packets
  import opened Sending
  import opened Connections
  import opened Invariants
  import opened Writers
  import opened Frames
  import opened Runs
  import opened Protocol
  import opened Theorems
  import opened Extensions
  import opened Endings
  import opened Losses
  import opened Cuts
  import opened Effects

  /** All that may arrive at the endpoint of the role. */
  function Wire(s: System, role: Role): seq<Packet> {
    if s.Joined? then Peer(s, role).out else []
  }

  lemma TurnAt(s: System, x: Turn, role: Role)
    requires CanStep(s, x) && EventAt(x, role).Some?
    ensures Has(s, role) && Has(Step(s, x), role)
    ensures CanAct(At(s, role), x.event, x.shutdown, x.clock, Wire(s, role))
    ensures At(Step(s, x), role) == Act(At(s, role), x.event, x.shutdown, x.clock, Wire(s, role))
  {
  }

  // ---------------------------------------------------------------- a packet that arrives

  lemma AfterEventAddsOnly(c: Conn, shutdown: bool, clock: Clock)
    requires c.Valid() && (shutdown ==> c.CanFin())
    ensures c.out <= c.AfterEvent(shutdown, clock).out && c.results <= c.AfterEvent(shutdown, clock).results
  {
    if shutdown && c.stateType == Connected {
      ShutdownSendsFinIff(c, clock);
    }
  }

  /**
   * Every packet that arrives, in any run, and leaves its receiver up: what is lost then is sent again, each packet
   * once and with its bytes, and then a STATE if one is wanted.
   */
  lemma ArrivalsAreAnswered(run: Run, i: nat, role: Role)
    requires run.Valid() && Reaches(run, i) && i < |run.turns|
    requires EventAt(run.turns[i], role).Some? && Brought(EventAt(run.turns[i], role).value).Some?
    ensures var c, g, clock := At(run.states[i], role), Brought(run.turns[i].event).value, run.turns[i].clock;
            && c.Valid() && CanHandle(c, g, clock) && Reaches(run, i + 1)
            && (c.Handled(g, clock).stateType == Connected ==>
                 && c.Handled(g, clock).out == c.out
                 && FullyAnswered(c.Handled(g, clock), g, c.OnPacket(g, clock).out, clock)
                 && c.OnPacket(g, clock).out <= At(run.states[i + 1], role).out)
  {
    RunSteps(run, i);
    TurnOf(run.states[i], run.turns[i], role);
    var c, x := At(run.states[i], role), run.turns[i];
    var g := Brought(x.event).value;
    AfterEventAddsOnly(c.OnPacket(g, x.clock), x.shutdown, x.clock);
    if c.Handled(g, x.clock).stateType == Connected {
      OnPacketAnswers(c, g, x.clock);
    }
  }

  /** The packet acks a packet of ours, and is not refused. */
  predicate AcksSent(c: Conn, p: Packet) {
    && c.stateType == Connected && c.bufs.Some? && p.header.ptype in {State, Data, Fin} && Refusal(c, p).None?
    && p.header.ackNum != c.bufs.value.sent.init
  }

  /** Its ack is given to the record of what was sent. */
  lemma HandledAcks(c: Conn, p: Packet, clock: Clock)
    requires c.Valid() && IsOpen(c) && AcksSent(c, p)
    ensures var h := c.Handled(p, clock); var s := c.bufs.value.sent;
            && h.stateType == Connected && h.bufs.Some? && Index(s.init, p.header.ackNum) < |s.packets|
            && h.bufs.value.sent == s.OnAck(p.header.ackNum, p.eack, p.header.tsDiff * 1000, clock).0
  {
    var o := c.Observe(p, clock);
    ObserveRefusesNothing(c, p, clock);
    DispatchRefuses(o, p);
    DispatchIsValid(o, p);
    DispatchLeavesList(o, p);
    AcknowledgeTakes(o.Dispatch(p), p, clock);
    HandledRefuses(c, p, clock);
  }

  lemma AcknowledgeTakes(c: Conn, p: Packet, clock: Clock)
    requires c.Valid() && c.stateType == Connected && p.header.ptype in {State, Data, Fin}
    ensures var d := c.Acknowledge(p, clock);
            && d.bufs.Some?
            && d.bufs.value.sent == c.bufs.value.sent.OnAck(p.header.ackNum, p.eack, p.header.tsDiff * 1000, clock).0
  {
  }

  /** An ack that leaves packets lost at least halves the window, and sending them again does not widen it. */
  lemma OnPacketHalves(c: Conn, p: Packet, clock: Clock)
    requires c.Valid() && IsOpen(c) && CanHandle(c, p, clock) && AcksSent(c, p)
    ensures var h, c1 := c.Handled(p, clock), c.OnPacket(p, clock);
            && h.bufs.Some? && c1.bufs.Some?
            && c1.bufs.value.sent.ctrl.maxWindow == h.bufs.value.sent.ctrl.maxWindow
            && (h.bufs.value.sent.lost != {} ==> AtLeastHalved(c.bufs.value.sent.ctrl, h.bufs.value.sent.ctrl))
  {
    HandledAcks(c, p, clock);
    var h, s := c.Handled(p, clock), c.bufs.value.sent;
    if h.bufs.value.sent.lost != {} {
      LossesReachTheWindow(s, p.header.ackNum, p.eack, p.header.tsDiff * 1000, clock);
    }
    ReplyChangesNothing(h, p, clock);
    ConcludeKeepsSent(h.RetransmitLost(clock).Respond(p, clock));
  }

  lemma ConcludeKeepsSent(c: Conn)
    requires c.Valid()
    ensures c.Conclude().bufs.Some? <==> c.bufs.Some?
    ensures c.bufs.Some? ==> c.Conclude().bufs.value.sent == c.bufs.value.sent
  {
    if c.stateType == Connected {
      DeliverKeepsState(c);
    }
  }

  lemma AfterEventKeepsMax(c: Conn, shutdown: bool, clock: Clock)
    requires c.Valid() && (shutdown ==> c.CanFin()) && c.bufs.Some?
    ensures var c1 := c.AfterEvent(shutdown, clock);
            c1.bufs.Some? && c1.bufs.value.sent.ctrl.maxWindow == c.bufs.value.sent.ctrl.maxWindow
  {
    if shutdown && c.WantsFin() {
      FinFits(c, clock);
      FreshTransmission(c.bufs.value.sent, Fin, [], clock.now);
    }
  }

  /** In every run, a packet whose ack leaves any of ours lost at least halves the window. */
  lemma LossesHalveInRuns(run: Run, i: nat, role: Role)
    requires run.Valid() && i < |run.turns| && EventAt(run.turns[i], role).Some? && Has(run.states[i], role)
    requires Brought(run.turns[i].event).Some? && AcksSent(At(run.states[i], role), Brought(run.turns[i].event).value)
    ensures Has(run.states[i + 1], role)
    ensures var c, c1 := At(run.states[i], role), At(run.states[i + 1], role);
            && c.Valid() && c1.bufs.Some?
            && var h := c.Handled(Brought(run.turns[i].event).value, run.turns[i].clock);
               && h.bufs.Some? && c1.bufs.value.sent.ctrl.maxWindow == h.bufs.value.sent.ctrl.maxWindow
               && (h.bufs.value.sent.lost != {} ==> AtLeastHalved(c.bufs.value.sent.ctrl, h.bufs.value.sent.ctrl))
  {
    assert Moves(run.states[i], run.turns[i], run.states[i + 1]);
    var c, x := At(run.states[i], role), run.turns[i];
    TurnAt(run.states[i], x, role);
    OpenInRuns(run, i, role);
    OnPacketHalves(c, Brought(x.event).value, x.clock);
    AfterEventKeepsMax(c.OnPacket(Brought(x.event).value, x.clock), x.shutdown, x.clock);
  }

  // ---------------------------------------------------------------- turns that end a connection

  /** Every write that waits is told the error, in order, and nothing else is told. */
  predicate AllFail(c: Conn, c1: Conn) {
    && |c1.results| == |c.results| + |c.pendingWrites| && c.results <= c1.results
    && forall k :: 0 <= k < |c.pendingWrites| ==> c1.results[|c.results| + k] == Failed(c.pendingWrites[k].id, c1.err)
  }

  /** The connection is closed, with this error or none, and has told it to whoever waits. */
  predicate Ended(c: Conn, c1: Conn, error: Option<ConnError>) {
    c1.stateType == Closed && c1.err == error && AllFail(c, c1)
  }

  /** A RESET is an error unless our FIN is out. */
  function ResetError(c: Conn): Option<ConnError> {
    if c.LocalFin().None? then Some(PeerReset) else None
  }

  /** A turn in which the connection closes fails what waits. */
  lemma ClosedFailsAll(c: Conn, shutdown: bool, clock: Clock)
    requires c.Valid() && c.stateType == Closed && (shutdown ==> c.CanFin())
    ensures var c1 := c.AfterEvent(shutdown, clock);
            AllFail(c, c1) && c1.stateType == Closed && c1.err == c.err && c1.pendingWrites == c.pendingWrites
  {
  }

  lemma SilenceEndsTurn(c: Conn, shutdown: bool, clock: Clock, wire: seq<Packet>)
    requires CanAct(c, Silence, shutdown, clock, wire)
    ensures Ended(c, Act(c, Silence, shutdown, clock, wire), Some(TimeOut))
  {
    IdleEnds(c);
    ClosedFailsAll(c.OnIdle(), shutdown, clock);
  }

  lemma ResetCloses(c: Conn, p: Packet, clock: Clock)
    requires c.Valid() && IsOpen(c) && CanHandle(c, p, clock) && p.header.ptype == Reset
    ensures var c1 := c.OnPacket(p, clock);
            && c1.stateType == Closed && c1.err == (if c.LocalFin().None? then Some(PeerReset) else None)
            && c1.pendingWrites == c.pendingWrites && c1.results == c.results
  {
    ResetEnds(c, p, clock);
    OnPacketKeepsQueue(c, p, clock);
  }

  lemma SameFailures(c: Conn, c0: Conn, c1: Conn)
    requires AllFail(c0, c1) && c0.pendingWrites == c.pendingWrites && c0.results == c.results
    ensures AllFail(c, c1)
  {
  }

  lemma ResetFailsAll(c: Conn, p: Packet, shutdown: bool, clock: Clock)
    requires c.Valid() && IsOpen(c) && CanHandle(c, p, clock) && p.header.ptype == Reset
    requires shutdown ==> c.OnPacket(p, clock).CanFin()
    ensures Ended(c, c.OnPacket(p, clock).AfterEvent(shutdown, clock), ResetError(c))
  {
    var c0 := c.OnPacket(p, clock);
    ResetCloses(c, p, clock);
    ClosedFailsAll(c0, shutdown, clock);
    SameFailures(c, c0, c0.AfterEvent(shutdown, clock));
  }

  lemma InterfereIsPacket(c: Conn, p: Packet, shutdown: bool, clock: Clock, wire: seq<Packet>)
    requires CanAct(c, Interfere(p), shutdown, clock, wire)
    ensures CanHandle(c, p, clock) && p.header.ptype == Reset && (shutdown ==> c.OnPacket(p, clock).CanFin())
    ensures Act(c, Interfere(p), shutdown, clock, wire) == c.OnPacket(p, clock).AfterEvent(shutdown, clock)
  {
  }

  lemma ResetEndsTurn(c: Conn, p: Packet, shutdown: bool, clock: Clock, wire: seq<Packet>)
    requires IsOpen(c) && CanAct(c, Interfere(p), shutdown, clock, wire)
    ensures Ended(c, Act(c, Interfere(p), shutdown, clock, wire), ResetError(c))
  {
    InterfereIsPacket(c, p, shutdown, clock, wire);
    ResetFailsAll(c, p, shutdown, clock);
  }

  lemma OnPacketKeepsQueue(c: Conn, p: Packet, clock: Clock)
    requires c.Valid() && CanHandle(c, p, clock)
    ensures c.OnPacket(p, clock).pendingWrites == c.pendingWrites && c.OnPacket(p, clock).results == c.results
  {
    OnPacketAnswersNothing(c, p, clock);
    HandledIsSilent(c, p, clock);
    var h := c.Handled(p, clock);
    if h.stateType == Connected {
      ResendAllCounts(h, h.bufs.value.sent.lost, clock);
    }
    RespondChangesNothing(h.RetransmitLost(clock), p, clock);
    ConcludeIsSilent(h.RetransmitLost(clock).Respond(p, clock));
  }

  lemma TidyIsOpen(s: System, x: Turn, role: Role)
    requires AllTidy(s) && CanStep(s, x) && EventAt(x, role).Some?
    ensures Has(s, role) && IsOpen(At(s, role))
  {
  }

  lemma OpenInRuns(run: Run, i: nat, role: Role)
    requires run.Valid() && i < |run.turns| && EventAt(run.turns[i], role).Some?
    ensures Has(run.states[i], role) && IsOpen(At(run.states[i], role))
  {
    RunIsTidy(run, i);
    assert Moves(run.states[i], run.turns[i], run.states[i + 1]);
    TidyIsOpen(run.states[i], run.turns[i], role);
  }

  /** In every run, a RESET or the idle timer ends the connection and fails every write that waits. */
  lemma EndsInRuns(run: Run, i: nat, role: Role)
    requires run.Valid() && i < |run.turns| && Has(run.states[i], role) && EventAt(run.turns[i], role).Some?
    requires run.turns[i].event.Interfere? || run.turns[i].event.Silence?
    ensures Has(run.states[i + 1], role)
    ensures var c, c1 := At(run.states[i], role), At(run.states[i + 1], role);
            Ended(c, c1, if run.turns[i].event.Silence? then Some(TimeOut) else ResetError(c))
  {
    OpenInRuns(run, i, role);
    RunSteps(run, i);
    var c, x, wire := At(run.states[i], role), run.turns[i], Wire(run.states[i], role);
    TurnAt(run.states[i], x, role);
    if x.event.Silence? {
      SilenceEndsTurn(c, x.shutdown, x.clock, wire);
    } else {
      ResetEndsTurn(c, x.event.reset, x.shutdown, x.clock, wire);
    }
  }

  // ---------------------------------------------------------------- the peer's window

  lemma AfterEventKeepsPeer(c: Conn, shutdown: bool, clock: Clock)
    requires c.Valid() && (shutdown ==> c.CanFin())
    ensures SamePeer(c, c.AfterEvent(shutdown, clock))
  {
    var c1 := if shutdown && c.stateType != Closed then c.Shutdown(clock) else c;
    if c1.stateType == Closed {
      ProcessWritesKeepsStatus(c1, clock);
    }
  }

  lemma ApplyKeepsPeer(c: Conn, e: Event, clock: Clock, wire: seq<Packet>)
    requires c.Valid() && Possible(c, e, clock, wire) && Brought(e).None?
    ensures SamePeer(c, Apply(c, e, clock, wire))
  {
    match e {
      case Submit(id, data) => ProcessWritesKeepsStatus(c.Enqueue(id, data), clock);
      case Fetch => ProcessReadsIsSilent(c);
      case Flush => ProcessWritesKeepsStatus(c, clock);
      case Expire(_) =>
      case Arrive(_) =>
      case Ask =>
      case Silence =>
      case Scribble(_, _, _) =>
    }
  }

  lemma ActLearnsWindow(c: Conn, e: Event, shutdown: bool, clock: Clock, wire: seq<Packet>)
    requires CanAct(c, e, shutdown, clock, wire)
    ensures Act(c, e, shutdown, clock, wire).peerRecvWindow ==
            if Brought(e).Some? then Brought(e).value.header.wnd else c.peerRecvWindow
  {
    if Brought(e).Some? {
      OnPacketObserves(c, Brought(e).value, clock);
    } else {
      ApplyKeepsPeer(c, e, clock, wire);
    }
    AfterEventKeepsPeer(Apply(c, e, clock, wire), shutdown, clock);
  }

  /** The turn brings the endpoint of the role a packet. */
  predicate Brings(x: Turn, role: Role) {
    EventAt(x, role).Some? && Brought(EventAt(x, role).value).Some?
  }

  lemma StepKeepsWindow(s: System, x: Turn, role: Role)
    requires CanStep(s, x) && Has(s, role) && !Brings(x, role)
    ensures Has(Step(s, x), role) && At(Step(s, x), role).peerRecvWindow == At(s, role).peerRecvWindow
  {
    if EventAt(x, role).Some? {
      TurnAt(s, x, role);
      ActLearnsWindow(At(s, role), x.event, x.shutdown, x.clock, Wire(s, role));
    }
  }

  lemma WindowStaysOnce(run: Run, role: Role, i: nat)
    requires run.Valid() && i < |run.turns| && Has(run.states[i], role) && !Brings(run.turns[i], role)
    ensures Has(run.states[i + 1], role)
    ensures At(run.states[i + 1], role).peerRecvWindow == At(run.states[i], role).peerRecvWindow
  {
    assert Moves(run.states[i], run.turns[i], run.states[i + 1]);
    StepKeepsWindow(run.states[i], run.turns[i], role);
  }

  lemma {:induction false} WindowStays(run: Run, role: Role, k: nat, n: nat)
    requires run.Valid() && k <= n < |run.states| && Has(run.states[k], role)
    requires forall i :: k <= i < n ==> !Brings(run.turns[i], role)
    ensures Has(run.states[n], role) && At(run.states[n], role).peerRecvWindow == At(run.states[k], role).peerRecvWindow
    decreases n
  {
    if k < n {
      WindowStays(run, role, k, n - 1);
      WindowStaysOnce(run, role, n - 1);
    }
  }

  /** An endpoint always goes by the window that the last packet announced, whatever kind of packet it was. */
  lemma WindowIsLast(run: Run, role: Role, k: nat, n: nat)
    requires run.Valid() && k < n < |run.states| && Brings(run.turns[k], role)
    requires forall i :: k < i < n ==> !Brings(run.turns[i], role)
    ensures Has(run.states[n], role)
    ensures At(run.states[n], role).peerRecvWindow == Brought(run.turns[k].event).value.header.wnd
  {
    assert Moves(run.states[k], run.turns[k], run.states[k + 1]);
    var s, x := run.states[k], run.turns[k];
    TurnAt(s, x, role);
    ActLearnsWindow(At(s, role), x.event, x.shutdown, x.clock, Wire(s, role));
    WindowStays(run, role, k + 1, n);
  }

  /** Before any packet it is the largest there is, or, for an acceptor, that of the SYN. */
  lemma FirstWindow(run: Run, n: nat)
    requires run.Valid() && n < |run.states|
    ensures (forall i :: 0 <= i < n ==> !Brings(run.turns[i], Initiator)) ==>
              run.states[n].a.peerRecvWindow == 0xFFFF_FFFF
    ensures forall k :: 0 <= k < n && run.turns[k].Greet? && (forall i :: k < i < n ==> !Brings(run.turns[i], Acceptor))
              ==> run.states[n].Joined? && run.states[n].b.peerRecvWindow == run.turns[k].syn.header.wnd
  {
    if forall i :: 0 <= i < n ==> !Brings(run.turns[i], Initiator) {
      WindowStays(run, Initiator, 0, n);
    }
    forall k | 0 <= k < n && run.turns[k].Greet? && (forall i :: k < i < n ==> !Brings(run.turns[i], Acceptor))
      ensures run.states[n].Joined? && run.states[n].b.peerRecvWindow == run.turns[k].syn.header.wnd
    {
      assert Moves(run.states[k], run.turns[k], run.states[k + 1]);
      WindowStays(run, Acceptor, k + 1, n);
    }
  }

  // ---------------------------------------------------------------- what is sent first

  lemma FinHasNoBytes(c: Conn, clock: Clock)
    requires c.Valid() && c.CanFin()
    ensures Stream(SentOf(c.Shutdown(clock).bufs)) == Stream(SentOf(c.bufs))
  {
    if c.WantsFin() {
      FinFits(c, clock);
      FreshTransmission(c.bufs.value.sent, Fin, [], clock.now);
      var ps := SentOf(c.bufs);
      var ps1 := SentOf(c.Shutdown(clock).bufs);
      assert ps1[..|ps|] == ps && ps1[|ps|].data == [];
      JoinSnoc(Payloads(ps), []);
      assert Payloads(ps1) == Payloads(ps) + [[]];
      assert Stream(ps) + [] == Stream(ps);
    }
  }

  /** The same packets are sequenced. */
  predicate SameSent(c: Conn, c1: Conn) {
    SameContents(SentOf(c.bufs), SentOf(c1.bufs))
  }

  lemma SameContentsOn(a: seq<SentPacket>, b: seq<SentPacket>, c: seq<SentPacket>)
    requires SameContents(a, b) && SameContents(b, c)
    ensures SameContents(a, c)
  {
  }

  lemma AckedIsSame(a: seq<SentPacket>, b: seq<SentPacket>)
    requires SamePackets(a, b)
    ensures SameContents(a, b)
  {
  }

  lemma {:induction false} ResendAllSendsNothingNew(c: Conn, lost: set<u16>, clock: Clock)
    requires c.Valid() && c.Resendable(lost)
    ensures SameSent(c, c.ResendAll(lost, clock))
    decreases |lost|
  {
    if lost != {} {
      var q := Smallest(lost);
      ResendNext(c, lost, q, clock);
      ResendChangesTimesOnly(c, q, clock);
      var c1 := c.Transmit(c.Repeat(q, clock), clock);
      ResendAllSendsNothingNew(c1, lost - {q}, clock);
      SameContentsOn(SentOf(c.bufs), SentOf(c1.bufs), SentOf(c1.ResendAll(lost - {q}, clock).bufs));
    }
  }

  lemma DispatchSendsNothing(c: Conn, p: Packet)
    requires c.Valid() && (c.stateType == Connecting ==> c.bufs.None?)
    ensures SentOf(c.Dispatch(p).bufs) == SentOf(c.bufs)
  {
  }

  lemma AcknowledgeSendsNothing(c: Conn, p: Packet, clock: Clock)
    requires c.Valid()
    ensures SameSent(c, c.Acknowledge(p, clock))
  {
    if c.stateType == Connected {
      OnAckEffect(c.bufs.value.sent, p.header.ackNum, p.eack, p.header.tsDiff * 1000, clock);
      AckedIsSame(SentOf(c.bufs), SentOf(c.Acknowledge(p, clock).bufs));
    }
  }

  lemma HandledSendsNothing(c: Conn, p: Packet, clock: Clock)
    requires c.Valid() && IsOpen(c)
    ensures SameSent(c, c.Handled(p, clock))
  {
    DispatchIsValid(c.Observe(p, clock), p);
    DispatchSendsNothing(c.Observe(p, clock), p);
    AcknowledgeSendsNothing(c.Observe(p, clock).Dispatch(p), p, clock);
  }

  lemma OnPacketSendsNothingNew(c: Conn, p: Packet, clock: Clock)
    requires c.Valid() && IsOpen(c) && CanHandle(c, p, clock)
    ensures SameSent(c, c.OnPacket(p, clock))
  {
    HandledSendsNothing(c, p, clock);
    var h := c.Handled(p, clock);
    if h.stateType == Connected {
      ResendAllSendsNothingNew(h, h.bufs.value.sent.lost, clock);
    }
    var c1 := h.RetransmitLost(clock);
    RespondChangesNothing(c1, p, clock);
    ConcludeKeepsSent(c1.Respond(p, clock));
  }

  lemma OnTimeoutSendsNothingNew(c: Conn, p: Packet, clock: Clock)
    requires c.Valid() && c.CanResend(p)
    ensures SameSent(c, c.OnTimeout(p, clock))
  {
    if c.stateType == Connected && p.header.ptype != Syn {
      SlowedIsValid(c, clock);
      var c1 := c.Slowed(clock);
      RenewedFits(c1, p, clock);
      Retransmission(c1.bufs.value.sent, p.header.seqNum, p.header.ptype, p.body, clock.now);
    }
  }

  lemma SameContentsSameStream(a: seq<SentPacket>, b: seq<SentPacket>)
    requires SameContents(a, b)
    ensures Stream(a) == Stream(b)
  {
    assert Payloads(a) == Payloads(b);
  }

  /** The event has the writer served. */
  predicate Serves(e: Event) {
    e.Submit? || e.Flush?
  }

  /** What is sent first, if this event comes: what is due, if the writer is served and the connection is up. */
  function SentNow(c: Conn, e: Event): seq<u8>
    requires c.bufs.Some? ==> c.bufs.value.send.WellPlaced() && Due(c) <= |c.bufs.value.send.Contents()|
  {
    if Serves(e) && c.stateType == Connected && c.bufs.Some? then c.bufs.value.send.Contents()[..Due(c)] else []
  }

  lemma DueIsThere(c: Conn)
    requires c.Valid()
    ensures c.bufs.Some? ==> c.bufs.value.send.WellPlaced() && Due(c) <= |c.bufs.value.send.Contents()|
  {
    if c.bufs.Some? {
      NextPayloadsAreDue(c);
    }
  }

  lemma ServingSends(c: Conn, e: Event, clock: Clock, wire: seq<Packet>)
    requires c.Valid() && IsOpen(c) && Possible(c, e, clock, wire) && Serves(e)
    ensures c.bufs.Some? ==> c.bufs.value.send.WellPlaced() && Due(c) <= |c.bufs.value.send.Contents()|
    ensures Stream(SentOf(Apply(c, e, clock, wire).bufs)) == Stream(SentOf(c.bufs)) + SentNow(c, e)
  {
    DueIsThere(c);
    var c0 := if e.Submit? then c.Enqueue(e.id, e.data) else c;
    assert c0.bufs == c.bufs && c0.stateType == c.stateType;
    if c.stateType == Connected {
      ProcessWritesSends(c0, clock);
      assert Due(c0) == Due(c);
    }
  }

  lemma OthersSendNothing(c: Conn, e: Event, clock: Clock, wire: seq<Packet>)
    requires c.Valid() && IsOpen(c) && Possible(c, e, clock, wire) && !Serves(e)
    ensures SameSent(c, Apply(c, e, clock, wire))
  {
    match e {
      case Fetch => if c.stateType == Connected { DeliverKeepsState(c); }
      case Expire(p) => OnTimeoutSendsNothingNew(c, p, clock);
      case Arrive(p) => if FromWire(p).Ok? { OnPacketSendsNothingNew(c, FromWire(p).value, clock); }
      case Interfere(p) => OnPacketSendsNothingNew(c, p, clock);
      case Ask =>
      case Silence =>
      case Scribble(_, _, _) =>
    }
  }

  lemma AfterEventSendsNothing(c: Conn, shutdown: bool, clock: Clock)
    requires c.Valid() && (shutdown ==> c.CanFin())
    ensures Stream(SentOf(c.AfterEvent(shutdown, clock).bufs)) == Stream(SentOf(c.bufs))
  {
    if shutdown && c.stateType != Closed {
      FinHasNoBytes(c, clock);
    }
  }

  /** The bytes that a turn sends first are those that are due if it serves the writer, and there are none otherwise. */
  lemma ActSends(c: Conn, e: Event, shutdown: bool, clock: Clock, wire: seq<Packet>)
    requires CanAct(c, e, shutdown, clock, wire) && IsOpen(c)
    ensures c.bufs.Some? ==> c.bufs.value.send.WellPlaced() && Due(c) <= |c.bufs.value.send.Contents()|
    ensures Stream(SentOf(Act(c, e, shutdown, clock, wire).bufs)) == Stream(SentOf(c.bufs)) + SentNow(c, e)
  {
    DueIsThere(c);
    if Serves(e) {
      ServingSends(c, e, clock, wire);
    } else {
      OthersSendNothing(c, e, clock, wire);
      SameContentsSameStream(SentOf(c.bufs), SentOf(Apply(c, e, clock, wire).bufs));
      assert Stream(SentOf(c.bufs)) + [] == Stream(SentOf(c.bufs));
    }
    AfterEventSendsNothing(Apply(c, e, clock, wire), shutdown, clock);
  }

  /** In every turn of every run. */
  lemma SendsWhatIsDue(run: Run, i: nat, role: Role)
    requires run.Valid() && i < |run.turns| && EventAt(run.turns[i], role).Some?
    ensures Has(run.states[i], role) && Has(run.states[i + 1], role)
    ensures var c, c1 := At(run.states[i], role), At(run.states[i + 1], role);
            && (c.bufs.Some? ==> c.bufs.value.send.WellPlaced() && Due(c) <= |c.bufs.value.send.Contents()|)
            && Stream(SentOf(c1.bufs)) == Stream(SentOf(c.bufs)) + SentNow(c, run.turns[i].event)
  {
    assert Moves(run.states[i], run.turns[i], run.states[i + 1]);
    var x := run.turns[i];
    TurnAt(run.states[i], x, role);
    OpenInRuns(run, i, role);
    ActSends(At(run.states[i], role), x.event, x.shutdown, x.clock, Wire(run.states[i], role));
  }

  /** No turn sends more new bytes than the last packet that arrived had announced room for. */
  lemma SendsWithinWindow(run: Run, role: Role, k: nat, n: nat)
    requires run.Valid() && k < n < |run.turns| && Brings(run.turns[k], role) && EventAt(run.turns[n], role).Some?
    requires forall i :: k < i < n ==> !Brings(run.turns[i], role)
    ensures Has(run.states[n], role) && Has(run.states[n + 1], role)
    ensures |Stream(SentOf(At(run.states[n + 1], role).bufs))| <=
            |Stream(SentOf(At(run.states[n], role).bufs))| + Brought(run.turns[k].event).value.header.wnd
  {
    WindowIsLast(run, role, k, n);
    SendsWhatIsDue(run, n, role);
  }

  // ---------------------------------------------------------------- all that is sequenced is sent

  predicate IsOut(out: seq<Packet>, q: SentPacket) {
    exists i :: 0 <= i < |out| && Shown(q, out[i])
  }

  /** Every packet that is sequenced has gone out, under its number and with its bytes. */
  predicate AllOut(c: Conn) {
    forall k :: 0 <= k < |SentOf(c.bufs)| ==> IsOut(c.out, SentOf(c.bufs)[k])
  }

  lemma StillOut(c: Conn, c1: Conn)
    requires AllOut(c) && SameSent(c, c1) && c.out <= c1.out
    ensures AllOut(c1)
  {
    forall k | 0 <= k < |SentOf(c1.bufs)| ensures IsOut(c1.out, SentOf(c1.bufs)[k]) {
      var i :| 0 <= i < |c.out| && Shown(SentOf(c.bufs)[k], c.out[i]);
      assert Shown(SentOf(c1.bufs)[k], c1.out[i]);
    }
  }

  lemma MoreOut(c: Conn, c1: Conn)
    requires AllOut(c) && c.out <= c1.out && SentOf(c.bufs) <= SentOf(c1.bufs)
    requires Mirrors(SentOf(c.bufs), SentOf(c1.bufs), c1.out[|c.out|..])
    ensures AllOut(c1)
  {
    var n, ps := |SentOf(c.bufs)|, SentOf(c1.bufs);
    forall k | 0 <= k < |ps| ensures IsOut(c1.out, ps[k]) {
      if k < n {
        var i :| 0 <= i < |c.out| && Shown(SentOf(c.bufs)[k], c.out[i]);
        assert Shown(ps[k], c1.out[i]);
      } else {
        assert Shown(ps[n + (k - n)], c1.out[|c.out|..][k - n]);
        assert Shown(ps[k], c1.out[|c.out| + (k - n)]);
      }
    }
  }

  lemma ServedIsOut(c: Conn, clock: Clock)
    requires c.Valid() && c.HasNumbers() && AllOut(c)
    ensures AllOut(c.ProcessWrites(clock))
  {
    if c.stateType == Connected {
      var sent := ProcessWritesFlushes(c, clock);
      ProcessWritesSends(c, clock);
      MoreOut(c, c.ProcessWrites(clock));
    }
  }

  lemma FinIsOut(c: Conn, clock: Clock)
    requires c.Valid() && c.CanFin() && AllOut(c)
    ensures AllOut(c.Shutdown(clock))
  {
    if c.WantsFin() {
      FinFits(c, clock);
      FreshTransmission(c.bufs.value.sent, Fin, [], clock.now);
      var c1 := c.Shutdown(clock);
      assert c1.out[|c.out|..] == [c1.out[|c.out|]];
      MoreOut(c, c1);
    }
  }

  lemma ApplyIsOut(c: Conn, e: Event, clock: Clock, wire: seq<Packet>)
    requires c.Valid() && IsOpen(c) && Possible(c, e, clock, wire) && AllOut(c)
    ensures AllOut(Apply(c, e, clock, wire))
  {
    if Serves(e) {
      ServedIsOut(if e.Submit? then c.Enqueue(e.id, e.data) else c, clock);
    } else {
      OthersSendNothing(c, e, clock, wire);
      ApplyAdds(c, e, clock, wire);
      StillOut(c, Apply(c, e, clock, wire));
    }
  }

  lemma AfterEventIsOut(c: Conn, shutdown: bool, clock: Clock)
    requires c.Valid() && (shutdown ==> c.CanFin()) && AllOut(c)
    ensures AllOut(c.AfterEvent(shutdown, clock))
  {
    if shutdown && c.stateType != Closed {
      FinIsOut(c, clock);
    }
  }

  lemma ActIsOut(c: Conn, e: Event, shutdown: bool, clock: Clock, wire: seq<Packet>)
    requires CanAct(c, e, shutdown, clock, wire) && IsOpen(c) && AllOut(c)
    ensures AllOut(Act(c, e, shutdown, clock, wire))
  {
    ApplyIsOut(c, e, clock, wire);
    AfterEventIsOut(Apply(c, e, clock, wire), shutdown, clock);
  }

  ghost predicate AllOutIn(s: System) {
    AllTidy(s) && AllOut(s.a) && (s.Joined? ==> AllOut(s.b))
  }

  lemma StepIsOut(s: System, x: Turn)
    requires AllOutIn(s) && CanStep(s, x)
    ensures AllOutIn(Step(s, x))
  {
    StepIsTidy(s, x);
    match x
    case AtInitiator(e, shutdown, clock) =>
      TidyIsOpen(s, x, Initiator);
      ActIsOut(s.a, e, shutdown, clock, Wire(s, Initiator));
    case AtAcceptor(e, shutdown, clock) =>
      TidyIsOpen(s, x, Acceptor);
      ActIsOut(s.b, e, shutdown, clock, s.a.out);
    case Greet(_, _, _, _, _, _) =>
  }

  /** In every state of every run, all that an endpoint has sequenced has gone out. */
  lemma SequencedIsSent(run: Run, i: nat, role: Role)
    requires run.Valid() && i < |run.states| && Has(run.states[i], role)
    ensures AllOut(At(run.states[i], role))
  {
    RunIsTidy(run, 0);
    forall s, x, t | AllOutIn(s) && Moves(s, x, t) ensures AllOutIn(t) {
      StepIsOut(s, x);
    }
    Invariance(run.states, run.turns, Moves, AllOutIn, i);
  }

  // ---------------------------------------------------------------- shutting down

  /**
   * After a turn in which the user's wish to shut down is served, a connection that is still up is closing, and if
   * nothing waits its FIN is out. One that was not up is closed, and that is no error.
   */
  lemma ActShutsDown(c: Conn, e: Event, clock: Clock, wire: seq<Packet>)
    requires CanAct(c, e, true, clock, wire)
    ensures var c1 := Act(c, e, true, clock, wire);
            && c1.stateType != Connecting && c1.err == Apply(c, e, clock, wire).err
            && (c1.stateType == Connected ==> c1.closing.Some? && (NothingWaits(c1) ==> c1.LocalFin().Some?))
  {
    var c0 := Apply(c, e, clock, wire);
    if c0.stateType == Connected {
      ShutdownSendsFinIff(c0, clock);
      ShutdownKeepsWaiting(c0, clock);
    }
  }

  lemma ShutdownKeepsWaiting(c: Conn, clock: Clock)
    requires c.Valid() && c.CanFin()
    ensures NothingWaits(c.Shutdown(clock)) <==> NothingWaits(c)
  {
  }

  lemma ShutsDownInRuns(run: Run, i: nat, role: Role)
    requires run.Valid() && i < |run.turns| && EventAt(run.turns[i], role).Some? && run.turns[i].shutdown
    ensures Has(run.states[i + 1], role)
    ensures var c1 := At(run.states[i + 1], role);
            && c1.stateType != Connecting
            && (c1.stateType == Connected ==> c1.closing.Some? && (NothingWaits(c1) ==> c1.LocalFin().Some?))
  {
    assert Moves(run.states[i], run.turns[i], run.states[i + 1]);
    var x := run.turns[i];
    TurnAt(run.states[i], x, role);
    ActShutsDown(At(run.states[i], role), x.event, x.clock, Wire(run.states[i], role));
  }
}
