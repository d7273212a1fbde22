/** How a connection ends: with an error only once it is closed, and without one if a RESET comes after its own FIN. */
module Endings {
  import opened Words
  import opened Collections
  import opened Packets
  import opened Sending
  import opened Connections
  import opened Invariants
  import opened Frames
  import opened Runs
  import opened Protocol

  /** No event tells the reader an error. */
  predicate Cheerful(readOut: seq<ReadEvent>) {
    forall e :: e in readOut ==> !e.ReadError?
  }

  /**
   * No error before the end, no reset reported by an endpoint that has sent its FIN, no error told to the reader, and
   * no end without an error that the reader is not told, but for a FIN of its own side.
   */
  predicate Tidy(c: Conn) {
    && (c.stateType == Connecting ==> c.bufs.None?)
    && (c.stateType != Closed ==> c.err.None?)
    && (c.err == Some(PeerReset) ==> c.LocalFin().None?)
    && Cheerful(c.readOut)
    && (c.stateType == Closed && c.err.None? && c.bufs.Some? ==> Eof in c.readOut || c.LocalFin().Some?)
  }

  lemma AbortIsTidy(c: Conn, error: ConnError)
    requires Shaped(c) && Tidy(c) && c.stateType != Closed
    ensures Tidy(c.Abort(error))
  {
  }

  lemma DispatchIsTidy(c: Conn, p: Packet)
    requires c.Valid() && Shaped(c) && Tidy(c)
    requires c.stateType != Closed
    ensures Tidy(c.Dispatch(p))
  {
    DispatchIsSilent(c, p);
    match p.header.ptype
    case Syn => AbortIsTidy(c, if c.endpoint.role == Acceptor then BadSyn else SynFromAcceptor);
    case State =>
    case Data => AbortIsTidy(c, EmptyPayload);
    case Fin => AbortIsTidy(c, BadFin);
    case Reset => AbortIsTidy(c, PeerReset);
  }

  lemma AcknowledgeIsTidy(c: Conn, p: Packet, clock: Clock)
    requires c.Valid() && Tidy(c)
    ensures Tidy(c.Acknowledge(p, clock))
  {
    AcknowledgeIsSilent(c, p, clock);
  }

  lemma HandledIsTidy(c: Conn, p: Packet, clock: Clock)
    requires c.Valid() && Shaped(c) && Tidy(c) && c.stateType != Closed
    ensures Tidy(c.Handled(p, clock))
  {
    DispatchIsTidy(c.Observe(p, clock), p);
    DispatchIsValid(c.Observe(p, clock), p);
    AcknowledgeIsTidy(c.Observe(p, clock).Dispatch(p), p, clock);
  }

  lemma {:induction false} DeliverIsCheerful(c: Conn)
    requires c.bufs.Some? && Cheerful(c.readOut)
    ensures Cheerful(c.Deliver().readOut)
    decreases |c.bufs.value.recv.buf|
  {
    if Min(c.cfg.maxPacketSize, |c.bufs.value.recv.buf|) != 0 {
      DeliverIsCheerful(c.HandOver());
    }
  }

  /** An open connection tells its reader no error, and the end of the stream if it is there. */
  lemma ProcessReadsIsCheerful(c: Conn)
    requires c.Valid() && c.stateType != Closed && Cheerful(c.readOut)
    ensures Cheerful(c.ProcessReads().readOut) && (c.AtEof() ==> Eof in c.ProcessReads().readOut)
  {
    if c.stateType == Connected {
      DeliverKeepsState(c);
      DeliverIsCheerful(c);
    }
  }

  lemma ConcludeIsTidy(c: Conn)
    requires c.Valid() && Tidy(c)
    ensures Tidy(c.Conclude())
  {
    var c1 := c.CloseIfAcked();
    if c1.stateType == Connected {
      ProcessReadsIsSilent(c1);
      ProcessReadsIsCheerful(c1);
    }
  }

  lemma AnswerIsTidy(c: Conn, p: Packet, clock: Clock)
    requires c.Valid() && c.CanRetransmit() && Tidy(c)
    ensures Tidy(c.Answer(p, clock))
  {
    ReplyIsUnmoved(c, p, clock);
    ConcludeIsTidy(c.RetransmitLost(clock).Respond(p, clock));
  }

  lemma OnPacketIsTidy(c: Conn, p: Packet, clock: Clock)
    requires c.Valid() && Shaped(c) && Tidy(c) && c.stateType != Closed && CanHandle(c, p, clock)
    ensures Tidy(c.OnPacket(p, clock))
  {
    HandledIsTidy(c, p, clock);
    AnswerIsTidy(c.Handled(p, clock), p, clock);
  }

  lemma ProcessWritesIsTidy(c: Conn, clock: Clock)
    requires c.Valid() && c.HasNumbers() && Tidy(c)
    ensures Tidy(c.ProcessWrites(clock))
  {
    ProcessWritesKeepsStatus(c, clock);
  }

  lemma OnTimeoutIsTidy(c: Conn, p: Packet, clock: Clock)
    requires c.Valid() && c.CanResend(p) && Tidy(c)
    ensures Tidy(c.OnTimeout(p, clock))
  {
  }

  lemma ApplyIsTidy(c: Conn, e: Event, clock: Clock, wire: seq<Packet>)
    requires c.Valid() && Shaped(c) && Tidy(c) && c.stateType != Closed && Possible(c, e, clock, wire)
    ensures Tidy(Apply(c, e, clock, wire))
  {
    match e
    case Submit(id, data) => ProcessWritesIsTidy(c.Enqueue(id, data), clock);
    case Fetch =>
      ProcessReadsIsSilent(c);
      ProcessReadsIsCheerful(c);
    case Flush => ProcessWritesIsTidy(c, clock);
    case Expire(p) => OnTimeoutIsTidy(c, p, clock);
    case Arrive(p) => if FromWire(p).Ok? { OnPacketIsTidy(c, FromWire(p).value, clock); }
    case Interfere(p) => OnPacketIsTidy(c, p, clock);
    case Ask =>
    case Silence =>
    case Scribble(_, _, _) =>
  }

  lemma AfterEventIsTidy(c: Conn, shutdown: bool, clock: Clock)
    requires c.Valid() && (shutdown ==> c.CanFin()) && Tidy(c)
    ensures Tidy(c.AfterEvent(shutdown, clock))
  {
    var c1 := if shutdown && c.stateType != Closed then c.Shutdown(clock) else c;
    assert Tidy(c1);
    if c1.stateType == Closed {
      ProcessWritesKeepsStatus(c1, clock);
    }
  }

  lemma ActIsTidy(c: Conn, e: Event, shutdown: bool, clock: Clock, wire: seq<Packet>)
    requires CanAct(c, e, shutdown, clock, wire) && Shaped(c) && Tidy(c)
    ensures Tidy(Act(c, e, shutdown, clock, wire))
  {
    ApplyIsTidy(c, e, clock, wire);
    AfterEventIsTidy(Apply(c, e, clock, wire), shutdown, clock);
  }

  // ---------------------------------------------------------------- runs

  ghost predicate AllTidy(s: System) {
    Good(s) && Tidy(s.a) && (s.Joined? ==> Tidy(s.b))
  }

  lemma StepIsTidy(s: System, x: Turn)
    requires AllTidy(s) && CanStep(s, x)
    ensures AllTidy(Step(s, x))
  {
    StepKeeps(s, x);
    match x
    case AtInitiator(e, shutdown, clock) => ActIsTidy(s.a, e, shutdown, clock, if s.Joined? then s.b.out else []);
    case AtAcceptor(e, shutdown, clock) => ActIsTidy(s.b, e, shutdown, clock, s.a.out);
    case Greet(_, _, _, _, _, _) =>
  }

  lemma RunIsTidy(run: Run, i: nat)
    requires run.Valid() && i < |run.states|
    ensures AllTidy(run.states[i])
  {
    StartIsGood(run.states[0]);
    forall s, x, t | AllTidy(s) && Moves(s, x, t) ensures AllTidy(t) {
      StepIsTidy(s, x);
    }
    Invariance(run.states, run.turns, Moves, AllTidy, i);
  }
}
