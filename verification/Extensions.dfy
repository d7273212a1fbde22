/**
 * What every packet sent says of itself: the lag of the peer, and whether it has an extension. If no timeout repeats a
 * packet whose extension byte has become wrong, every packet on the network has the right one.
 */
module Extensions {
  import opened Words
  import opened Collections
  import opened Packets
  import opened Sending
  import opened Connections
  import opened Frames
  import opened Runs
  import opened Arrivals
  import opened Protocol

  /** A STATE or DATA reports the given lag, and so does a FIN unless it reports none. */
  predicate Stamped(p: Packet, lag: u32) {
    && (p.header.ptype == State || p.header.ptype == Data ==> p.header.tsDiff == lag)
    && (p.header.ptype == Fin ==> p.header.tsDiff == lag || p.header.tsDiff == 0)
  }

  /** All that is sent between the two outputs reports the lag. */
  predicate Reports(out: seq<Packet>, out1: seq<Packet>, lag: u32) {
    out <= out1 && forall k :: |out| <= k < |out1| ==> Stamped(out1[k], lag)
  }

  /** All that is sent between the two outputs has the right extension byte. */
  predicate Announces(out: seq<Packet>, out1: seq<Packet>) {
    out <= out1 && forall k :: |out| <= k < |out1| ==> ExtensionAgrees(out1[k])
  }

  /** Both. */
  predicate Adds(out: seq<Packet>, out1: seq<Packet>, lag: u32) {
    Reports(out, out1, lag) && Announces(out, out1)
  }

  lemma ReportsOn(a: seq<Packet>, b: seq<Packet>, c: seq<Packet>, lag: u32)
    requires Reports(a, b, lag) && Reports(b, c, lag)
    ensures Reports(a, c, lag)
  {
    forall k | |a| <= k < |c| ensures Stamped(c[k], lag) {
      if k < |b| {
        assert c[k] == b[k];
      }
    }
  }

  lemma AnnouncesOn(a: seq<Packet>, b: seq<Packet>, c: seq<Packet>)
    requires Announces(a, b) && Announces(b, c)
    ensures Announces(a, c)
  {
    forall k | |a| <= k < |c| ensures ExtensionAgrees(c[k]) {
      if k < |b| {
        assert c[k] == b[k];
      }
    }
  }

  lemma AddsOne(out: seq<Packet>, p: Packet, lag: u32)
    requires Stamped(p, lag)
    ensures Reports(out, out + [p], lag)
    ensures ExtensionAgrees(p) ==> Announces(out, out + [p])
  {
  }

  lemma AddsOn(a: seq<Packet>, b: seq<Packet>, c: seq<Packet>, lag: u32)
    requires Adds(a, b, lag) && Adds(b, c, lag)
    ensures Adds(a, c, lag)
  {
    ReportsOn(a, b, c, lag);
    AnnouncesOn(a, b, c);
  }

  // ---------------------------------------------------------------- handlers

  lemma {:induction false} ResendAllAdds(c: Conn, lost: set<u16>, clock: Clock)
    requires c.Valid() && c.Resendable(lost)
    ensures Adds(c.out, c.ResendAll(lost, clock).out, c.TsDiff())
    decreases |lost|
  {
    if lost != {} {
      var q := Smallest(lost);
      ResendNext(c, lost, q, clock);
      var c1 := c.Transmit(c.Repeat(q, clock), clock);
      AddsOne(c.out, c.Repeat(q, clock), c.TsDiff());
      ResendAllAdds(c1, lost - {q}, clock);
      AddsOn(c.out, c1.out, c1.ResendAll(lost - {q}, clock).out, c.TsDiff());
    }
  }

  lemma RespondAdds(c: Conn, p: Packet, clock: Clock)
    requires c.Valid()
    ensures Adds(c.out, c.Respond(p, clock).out, c.TsDiff())
  {
    var sent := c.Respond(p, clock).out;
    if sent != c.out {
      assert sent == c.out + [sent[|c.out|]];
      AddsOne(c.out, sent[|c.out|], c.TsDiff());
    }
  }

  lemma ReplyAdds(c: Conn, p: Packet, clock: Clock)
    requires c.Valid() && c.CanRetransmit()
    ensures Adds(c.out, c.RetransmitLost(clock).Respond(p, clock).out, c.TsDiff())
  {
    var c1 := c.RetransmitLost(clock);
    if c.stateType == Connected {
      ResendAllAdds(c, c.bufs.value.sent.lost, clock);
      ResendAllIsUnmoved(c, c.bufs.value.sent.lost, clock);
    }
    RespondAdds(c1, p, clock);
    AddsOn(c.out, c1.out, c1.Respond(p, clock).out, c.TsDiff());
  }

  lemma OnPacketAdds(c: Conn, p: Packet, clock: Clock)
    requires c.Valid() && CanHandle(c, p, clock)
    ensures Adds(c.out, c.OnPacket(p, clock).out, c.Observe(p, clock).TsDiff())
  {
    var c1 := c.Handled(p, clock);
    HandledIsSilent(c, p, clock);
    ReplyAdds(c1, p, clock);
    ConcludeIsSilent(c1.RetransmitLost(clock).Respond(p, clock));
  }

  lemma {:induction false} SendAllAdds(c: Conn, payloads: seq<seq<u8>>, seqNum: u16, clock: Clock)
    requires c.Valid() && c.bufs.Some? && seqNum == c.bufs.value.sent.NextSeqNum()
    requires |c.bufs.value.sent.packets| + |payloads| <= MAX_PACKETS
    requires payloads == [] || c.bufs.value.sent.ctrl.window + |Join(payloads)| <= c.bufs.value.sent.ctrl.maxWindow
    ensures Adds(c.out, c.SendAll(payloads, seqNum, clock).out, c.TsDiff())
    decreases |payloads|
  {
    if payloads != [] {
      SendFits(c, payloads, clock);
      var p := c.Stamped(Data, seqNum, c.TsDiff(), payloads[0], clock);
      var c1 := c.Transmit(p, clock);
      AddsOne(c.out, p, c.TsDiff());
      SendAllAdds(c1, payloads[1..], Add(seqNum, 1), clock);
      AddsOn(c.out, c1.out, c1.SendAll(payloads[1..], Add(seqNum, 1), clock).out, c.TsDiff());
    }
  }

  lemma ProcessWritesAdds(c: Conn, clock: Clock)
    requires c.Valid() && c.HasNumbers()
    ensures Adds(c.out, c.ProcessWrites(clock).out, c.TsDiff())
  {
    if c.stateType == Connected {
      PayloadsFit(c);
      var cut := c.NextPayloads();
      RefillIsValid(cut.send, c.pendingWrites, c.results);
      var r := Refill(cut.send, c.pendingWrites, c.results);
      var c0 := c.(bufs := Some(c.bufs.value.(send := r.send)), pendingWrites := r.writes, results := r.results);
      SendAllAdds(c0, cut.payloads, c.bufs.value.sent.NextSeqNum(), clock);
    }
  }

  lemma ShutdownAdds(c: Conn, clock: Clock, lag: u32)
    requires c.Valid() && c.CanFin()
    ensures Adds(c.out, c.Shutdown(clock).out, lag)
  {
    if c.WantsFin() {
      FinFits(c, clock);
      AddsOne(c.out, c.Stamped(Fin, c.bufs.value.sent.NextSeqNum(), 0, [], clock), lag);
    }
  }

  /** The packet announced a bitmap if and only if one is due now. */
  predicate StillFits(c: Conn, p: Packet) {
    c.stateType == Connected && c.bufs.Some? && p.header.ptype != Syn ==>
      (p.header.extension == 1 <==> c.bufs.value.recv.pending != map[])
  }

  lemma RenewedIsStamped(c: Conn, p: Packet, clock: Clock)
    requires c.bufs.Some? && p.header.ptype != Syn && c.stateType == Connected
    ensures Stamped(c.Renewed(p, clock), c.TsDiff())
    ensures StillFits(c, p) && p.header.extension <= 1 ==> ExtensionAgrees(c.Renewed(p, clock))
  {
  }

  /** What sending the packet again adds to the output. */
  lemma RenewedAdds(c: Conn, p: Packet, clock: Clock)
    requires c.Valid() && c.stateType == Connected && c.CanResend(p) && p.header.ptype != Syn
    ensures var c1 := c.OnTimeout(p, clock);
            c1.out == c.out + [c.Renewed(p, clock)] && c1.peerTsDiff == c.peerTsDiff
  {
    SlowedIsValid(c, clock);
    var c1 := c.Slowed(clock);
    RenewedFits(c1, p, clock);
    assert c1.out == c.out && c1.peerTsDiff == c.peerTsDiff && c1.Renewed(p, clock) == c.Renewed(p, clock);
  }

  lemma OnTimeoutAdds(c: Conn, p: Packet, clock: Clock)
    requires c.Valid() && c.CanResend(p)
    ensures Reports(c.out, c.OnTimeout(p, clock).out, c.TsDiff())
    ensures StillFits(c, p) && p.header.extension <= 1 ==> Announces(c.out, c.OnTimeout(p, clock).out)
    ensures c.OnTimeout(p, clock).peerTsDiff == c.peerTsDiff
  {
    match c.stateType
    case Connecting => AddsOne(c.out, c.SynPacket(clock), c.TsDiff());
    case Closed =>
    case Connected =>
      if p.header.ptype != Syn {
        RenewedAdds(c, p, clock);
        RenewedIsStamped(c, p, clock);
        AddsOne(c.out, c.Renewed(p, clock), c.TsDiff());
      }
  }

  // ---------------------------------------------------------------- turns

  /** A timer that fires finds its packet still fitting. */
  predicate Timely(c: Conn, e: Event) {
    e.Expire? ==> StillFits(c, e.timed)
  }

  predicate Strictly(c: Conn, e: Event) {
    Timely(c, e) && (e.Expire? ==> e.timed.header.extension <= 1)
  }

  /** The packet that the event brings, if it can be decoded. */
  function Brought(e: Event): Option<Packet> {
    if e.Interfere? then Some(e.reset)
    else if e.Arrive? && WellFormed(e.sent) && FromWire(e.sent).Ok? then Some(FromWire(e.sent).value)
    else None
  }

  /** The connection as it reports on itself during the event. */
  function Noticing(c: Conn, e: Event, clock: Clock): Conn {
    if Brought(e).Some? then c.Observe(Brought(e).value, clock) else c
  }

  lemma ApplyAdds(c: Conn, e: Event, clock: Clock, wire: seq<Packet>)
    requires c.Valid() && Possible(c, e, clock, wire)
    ensures var c1 := Apply(c, e, clock, wire);
            && Reports(c.out, c1.out, Noticing(c, e, clock).TsDiff())
            && (Strictly(c, e) ==> Announces(c.out, c1.out))
            && c1.peerTsDiff == Noticing(c, e, clock).peerTsDiff
  {
    match e
    case Submit(id, data) => OnWriteAdds(c, id, data, clock);
    case Fetch => FetchAdds(c);
    case Flush => WritingAdds(c, clock);
    case Expire(p) => OnTimeoutAdds(c, p, clock);
    case Arrive(p) => TakeInAdds(c, p, clock);
    case Interfere(p) => BroughtAdds(c, p, clock);
    case Ask =>
    case Silence =>
    case Scribble(_, _, _) =>
  }

  lemma FetchAdds(c: Conn)
    requires c.Valid()
    ensures Adds(c.out, c.ProcessReads().out, c.TsDiff()) && c.ProcessReads().peerTsDiff == c.peerTsDiff
  {
    ProcessReadsIsSilent(c);
  }

  lemma TakeInAdds(c: Conn, p: Packet, clock: Clock)
    requires c.Valid() && CanTakeIn(c, p, clock)
    ensures var c1 := TakeIn(c, p, clock);
            && Adds(c.out, c1.out, Noticing(c, Arrive(p), clock).TsDiff())
            && c1.peerTsDiff == Noticing(c, Arrive(p), clock).peerTsDiff
  {
    if FromWire(p).Ok? {
      BroughtAdds(c, FromWire(p).value, clock);
    }
  }

  lemma WritingAdds(c: Conn, clock: Clock)
    requires c.Valid() && c.HasNumbers()
    ensures Adds(c.out, c.ProcessWrites(clock).out, c.TsDiff())
    ensures c.ProcessWrites(clock).peerTsDiff == c.peerTsDiff
  {
    ProcessWritesAdds(c, clock);
    ProcessWritesKeepsStatus(c, clock);
  }

  lemma OnWriteAdds(c: Conn, id: nat, data: seq<u8>, clock: Clock)
    requires c.Valid() && c.HasNumbers()
    ensures Adds(c.out, c.OnWrite(id, data, clock).out, c.TsDiff())
    ensures c.OnWrite(id, data, clock).peerTsDiff == c.peerTsDiff
  {
    WritingAdds(c.Enqueue(id, data), clock);
  }

  lemma BroughtAdds(c: Conn, g: Packet, clock: Clock)
    requires c.Valid() && CanHandle(c, g, clock)
    ensures Adds(c.out, c.OnPacket(g, clock).out, c.Observe(g, clock).TsDiff())
    ensures c.OnPacket(g, clock).peerTsDiff == c.Observe(g, clock).peerTsDiff
  {
    OnPacketAdds(c, g, clock);
    OnPacketAnswersNothing(c, g, clock);
  }

  lemma AfterEventAdds(c: Conn, shutdown: bool, clock: Clock, lag: u32)
    requires c.Valid() && (shutdown ==> c.CanFin())
    ensures var c1 := c.AfterEvent(shutdown, clock); Adds(c.out, c1.out, lag) && c1.peerTsDiff == c.peerTsDiff
  {
    if shutdown && c.stateType != Closed {
      ShutdownAdds(c, clock, lag);
    }
  }

  /** What a turn sends reports the lag of that turn, and has the right extension byte if no timer fires too late. */
  lemma ActAdds(c: Conn, e: Event, shutdown: bool, clock: Clock, wire: seq<Packet>)
    requires CanAct(c, e, shutdown, clock, wire)
    ensures var c1 := Act(c, e, shutdown, clock, wire);
            && Reports(c.out, c1.out, Noticing(c, e, clock).TsDiff())
            && (Strictly(c, e) ==> Announces(c.out, c1.out))
            && c1.peerTsDiff == Noticing(c, e, clock).peerTsDiff
  {
    var c1 := Apply(c, e, clock, wire);
    var c2, lag := c1.AfterEvent(shutdown, clock), Noticing(c, e, clock).TsDiff();
    ApplyAdds(c, e, clock, wire);
    AfterEventAdds(c1, shutdown, clock, lag);
    ReportsOn(c.out, c1.out, c2.out, lag);
    if Strictly(c, e) {
      AnnouncesOn(c.out, c1.out, c2.out);
    }
  }

  // ---------------------------------------------------------------- the extension byte over runs

  predicate AllAgree(out: seq<Packet>) {
    forall p :: p in out ==> ExtensionAgrees(p)
  }

  lemma ActAgrees(c: Conn, e: Event, shutdown: bool, clock: Clock, wire: seq<Packet>)
    requires CanAct(c, e, shutdown, clock, wire) && Timely(c, e) && AllAgree(c.out)
    ensures AllAgree(Act(c, e, shutdown, clock, wire).out)
  {
    ActAdds(c, e, shutdown, clock, wire);
    AddedAgree(c.out, Act(c, e, shutdown, clock, wire).out);
  }

  lemma AddedAgree(out: seq<Packet>, out1: seq<Packet>)
    requires AllAgree(out) && Announces(out, out1)
    ensures AllAgree(out1)
  {
    forall p | p in out1 ensures ExtensionAgrees(p) {
      var k :| 0 <= k < |out1| && out1[k] == p;
      assert k < |out| ==> out[k] == p;
    }
  }

  predicate Agreeing(s: System) {
    AllAgree(s.a.out) && (s.Joined? ==> AllAgree(s.b.out))
  }

  /** A step of the system in which timers fire in time. */
  ghost predicate TimelyMoves(s: System, x: Turn, t: System) {
    Moves(s, x, t) && (x.AtInitiator? ==> Timely(s.a, x.event)) && (x.AtAcceptor? ==> Timely(s.b, x.event))
  }

  lemma TimelyMovesAgree(s: System, x: Turn, t: System)
    requires Agreeing(s) && TimelyMoves(s, x, t)
    ensures Agreeing(t)
  {
    match x
    case AtInitiator(e, shutdown, clock) => ActAgrees(s.a, e, shutdown, clock, if s.Joined? then s.b.out else []);
    case AtAcceptor(e, shutdown, clock) => ActAgrees(s.b, e, shutdown, clock, s.a.out);
    case Greet(_, _, _, _, _, _) =>
  }

  /** What arrives was sent with the right byte. */
  lemma AgreeingIsSound(s: System, x: Turn, role: Role)
    requires Agreeing(s) && CanStep(s, x)
    ensures SoundAt(s, x, role)
  {
    if s.Joined? && EventAt(x, role).Some? {
      TurnOf(s, x, role);
    }
  }

  /**
   * If no timer fires for a packet whose extension byte has become wrong, then every packet that arrives is intact:
   * such runs are among those in which what is read and what is acked can be trusted.
   */
  lemma TimelyRunsAreSound(run: Run)
    requires Traces(run.states, run.turns, TimelyMoves) && Starts(run.states[0])
    ensures run.Valid() && run.Sound(|run.turns|)
  {
    forall i | 0 <= i < |run.turns| ensures Moves(run.states[i], run.turns[i], run.states[i + 1]) {
      assert TimelyMoves(run.states[i], run.turns[i], run.states[i + 1]);
    }
    forall s, x, t | Agreeing(s) && TimelyMoves(s, x, t) ensures Agreeing(t) {
      TimelyMovesAgree(s, x, t);
    }
    assert Agreeing(run.states[0]);
    forall i | 0 <= i < |run.turns| ensures SoundTurn(run.states[i], run.turns[i]) {
      Invariance(run.states, run.turns, TimelyMoves, Agreeing, i);
      assert TimelyMoves(run.states[i], run.turns[i], run.states[i + 1]);
      forall role ensures SoundAt(run.states[i], run.turns[i], role) {
        AgreeingIsSound(run.states[i], run.turns[i], role);
      }
    }
    SoundByTurns(run, |run.turns|);
  }
}
