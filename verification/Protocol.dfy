/** Two endpoints and a network that may lose, repeat, reorder and delay whatever was sent. */
module Protocol {
  import opened Words
  import opened Collections
  import opened Packets
  import opened Sending
  import opened Connections
  import opened Invariants
  import opened Handlers
  import opened Writers
  import opened Trust
  import opened Arrivals
  import opened Runs

  // ---------------------------------------------------------------- one endpoint's events

  /**
   * What wakes an endpoint's event loop. `Ask` is the user's request to shut down, which the end of the turn serves.
   * `Scribble` is no event of the loop: writers change bytes of theirs that it has not cut into packets yet.
   */
  datatype Event =
    | Submit(id: nat, data: seq<u8>)
    | Fetch
    | Flush
    | Expire(timed: Packet)
    | Arrive(sent: Packet)
    | Interfere(reset: Packet)
    | Ask
    | Silence
    | Scribble(pending: seq<seq<u8>>, writes: seq<QueuedWrite>, memory: seq<QueuedWrite>)

  /** SYN, DATA and FIN packets are sent again when their timer fires. */
  predicate Timed(p: Packet) {
    p.header.ptype == Syn || p.header.ptype == Data || p.header.ptype == Fin
  }

  ghost predicate CanHandle(c: Conn, p: Packet, clock: Clock)
    requires c.Valid()
  {
    c.Handled(p, clock).CanRetransmit()
  }

  ghost predicate CanTakeIn(c: Conn, p: Packet, clock: Clock)
    requires c.Valid()
  {
    WellFormed(p) && (FromWire(p).Ok? ==> CanHandle(c, FromWire(p).value, clock))
  }

  /** A packet that cannot be decoded is dropped. */
  ghost function TakeIn(c: Conn, p: Packet, clock: Clock): (r: Conn)
    requires c.Valid() && CanTakeIn(c, p, clock)
    ensures r.Valid()
  {
    if FromWire(p).Ok? then c.OnPacket(FromWire(p).value, clock) else c
  }

  /** The event can happen, and no counter or sequence number runs out. `wire` is all the peer has ever sent. */
  ghost predicate Possible(c: Conn, e: Event, clock: Clock, wire: seq<Packet>)
    requires c.Valid()
  {
    match e
    case Submit(_, _) => c.HasNumbers()
    case Fetch => true
    case Flush => c.HasNumbers()
    case Expire(p) => p in c.out && Timed(p) && c.CanResend(p)
    case Arrive(p) => p in wire && CanTakeIn(c, p, clock)
    case Interfere(p) => p.header.ptype == Reset && CanHandle(c, p, clock)
    case Ask => true
    case Silence => true
    case Scribble(pending, writes, memory) => CanRewrite(c, pending, writes, memory)
  }

  ghost function Apply(c: Conn, e: Event, clock: Clock, wire: seq<Packet>): (r: Conn)
    requires c.Valid() && Possible(c, e, clock, wire)
    ensures r.Valid()
  {
    match e
    case Submit(id, data) => c.OnWrite(id, data, clock)
    case Fetch => ProcessReadsIsValid(c); c.ProcessReads()
    case Flush => c.ProcessWrites(clock)
    case Expire(p) => c.OnTimeout(p, clock)
    case Arrive(p) => TakeIn(c, p, clock)
    case Interfere(p) => c.OnPacket(p, clock)
    case Ask => c
    case Silence => c.OnIdle()
    case Scribble(pending, writes, memory) =>
      RewriteIsValid(c, pending, writes, memory);
      c.Rewritten(pending, writes, memory)
  }

  /** A turn of the event loop, which has not ended: one event, and what follows every event. */
  ghost predicate CanAct(c: Conn, e: Event, shutdown: bool, clock: Clock, wire: seq<Packet>) {
    && c.Valid() && c.stateType != Closed && Possible(c, e, clock, wire)
    && (shutdown ==> Apply(c, e, clock, wire).CanFin())
  }

  ghost function Act(c: Conn, e: Event, shutdown: bool, clock: Clock, wire: seq<Packet>): (r: Conn)
    requires CanAct(c, e, shutdown, clock, wire)
    ensures r.Valid()
  {
    Apply(c, e, clock, wire).AfterEvent(shutdown, clock)
  }

  lemma ArriveKeeps(c: Conn, p: Packet, clock: Clock, d: Conn)
    requires Pair(c, d) && p in d.out && CanTakeIn(c, p, clock)
    ensures Keeps(c, TakeIn(c, p, clock), d)
  {
    assert Genuine(d.endpoint, d.bufs, p);
    if FromWire(p).Ok? {
      WireEchoes(p);
      OnPacketKeeps(c, FromWire(p).value, p, clock, d);
    } else {
      SameKeeps(c, d);
    }
  }

  lemma ApplyKeeps(c: Conn, e: Event, clock: Clock, wire: seq<Packet>, d: Conn)
    requires Pair(c, d) && Possible(c, e, clock, wire) && (forall p :: p in wire ==> p in d.out)
    ensures Keeps(c, Apply(c, e, clock, wire), d)
  {
    match e
    case Submit(id, data) => OnWriteKeeps(c, id, data, clock, d);
    case Fetch => ProcessReadsKeeps(c, d);
    case Flush => ProcessWritesKeeps(c, clock, d);
    case Expire(p) => OnTimeoutKeeps(c, p, clock, d);
    case Arrive(p) => ArriveKeeps(c, p, clock, d);
    case Interfere(p) => OnPacketKeeps(c, p, p, clock, d);
    case Ask => SameKeeps(c, d);
    case Silence => OnIdleKeeps(c, d);
    case Scribble(pending, writes, memory) => RewriteKeeps(c, pending, writes, memory, d);
  }

  lemma ActKeeps(c: Conn, e: Event, shutdown: bool, clock: Clock, wire: seq<Packet>, d: Conn)
    requires Pair(c, d) && CanAct(c, e, shutdown, clock, wire) && (forall p :: p in wire ==> p in d.out)
    ensures Keeps(c, Act(c, e, shutdown, clock, wire), d)
  {
    var c1 := Apply(c, e, clock, wire);
    ApplyKeeps(c, e, clock, wire, d);
    AfterEventKeeps(c1, shutdown, clock, d);
    KeepsChains(c, c1, c1.AfterEvent(shutdown, clock), d);
  }

  /** If the event is an arrival, it does the stream no harm. */
  ghost predicate StreamSoundEvent(c: Conn, e: Event)
    requires c.Valid()
  {
    e.Arrive? ==> StreamSound(c, e.sent)
  }

  /** If the event is an arrival, it does the acks no harm. */
  predicate AcksSoundEvent(c: Conn, e: Event, d: Conn) {
    e.Arrive? ==> AcksSound(c, e.sent, d)
  }

  /** An event that takes nothing in and hands nothing out. */
  predicate Inward(e: Event) {
    e.Submit? || e.Flush? || e.Expire? || e.Ask? || e.Silence? || e.Scribble?
  }

  lemma InwardIsQuiet(c: Conn, e: Event, clock: Clock, wire: seq<Packet>)
    requires Local(c) && Possible(c, e, clock, wire) && Inward(e)
    ensures Quietly(c, Apply(c, e, clock, wire))
  {
    match e
    case Submit(id, data) => OnWriteIsQuiet(c, id, data, clock);
    case Flush => ProcessWritesIsQuiet(c, clock);
    case Expire(p) => OnTimeoutIsQuiet(c, p, clock);
    case Ask => SameIsQuiet(c, c);
    case Silence => SameIsQuiet(c, c.OnIdle());
    case Scribble(pending, writes, memory) => SameIsQuiet(c, c.Rewritten(pending, writes, memory));
  }

  /** What is not an arrival neither spoils nor mends anything. */
  lemma ApplyIsSame(c: Conn, e: Event, clock: Clock, wire: seq<Packet>, d: Conn)
    requires Local(c) && Possible(c, e, clock, wire) && (Inward(e) || e.Fetch?)
    ensures SameWorth(c, Apply(c, e, clock, wire), d)
  {
    if Inward(e) {
      InwardIsQuiet(c, e, clock, wire);
      QuietlyIsSame(c, Apply(c, e, clock, wire), d);
    } else {
      ProcessReadsIsSame(c, d);
    }
  }

  lemma ApplyAssemblesIff(c: Conn, e: Event, clock: Clock, wire: seq<Packet>, d: Conn)
    requires Pair(c, d) && Assembled(c, d) && Possible(c, e, clock, wire) && (forall p :: p in wire ==> p in d.out)
    ensures Assembled(Apply(c, e, clock, wire), d) <==> StreamSoundEvent(c, e)
  {
    if e.Arrive? {
      if FromWire(e.sent).Ok? {
        ArrivalAssemblesIff(c, e.sent, clock, d);
      }
    } else if e.Interfere? {
      HandledAssemblesIff(c, e.reset, e.reset, clock, d);
      AnswerIsSame(c.Handled(e.reset, clock), e.reset, clock, d);
    } else {
      ApplyIsSame(c, e, clock, wire, d);
    }
  }

  lemma ApplyBacksIff(c: Conn, e: Event, clock: Clock, wire: seq<Packet>, d: Conn)
    requires Pair(c, d) && Backed(c, d) && Possible(c, e, clock, wire) && (forall p :: p in wire ==> p in d.out)
    ensures Backed(Apply(c, e, clock, wire), d) <==> AcksSoundEvent(c, e, d)
  {
    if e.Arrive? {
      if FromWire(e.sent).Ok? {
        ArrivalBacksIff(c, e.sent, clock, d);
      }
    } else if e.Interfere? {
      HandledBacksIff(c, e.reset, e.reset, clock, d);
      AnswerIsSame(c.Handled(e.reset, clock), e.reset, clock, d);
    } else {
      ApplyIsSame(c, e, clock, wire, d);
    }
  }

  /** A turn leaves what is assembled right if and only if what it takes in, if anything, does the stream no harm. */
  lemma ActAssemblesIff(c: Conn, e: Event, shutdown: bool, clock: Clock, d: Conn)
    requires Pair(c, d) && Assembled(c, d) && CanAct(c, e, shutdown, clock, d.out)
    ensures Assembled(Act(c, e, shutdown, clock, d.out), d) <==> StreamSoundEvent(c, e)
  {
    var c1 := Apply(c, e, clock, d.out);
    ApplyAssemblesIff(c, e, clock, d.out, d);
    AfterEventIsQuiet(c1, shutdown, clock);
    QuietlyIsSame(c1, c1.AfterEvent(shutdown, clock), d);
  }

  /** And what is taken for acked backed if and only if it does the acks no harm. */
  lemma ActBacksIff(c: Conn, e: Event, shutdown: bool, clock: Clock, d: Conn)
    requires Pair(c, d) && Backed(c, d) && CanAct(c, e, shutdown, clock, d.out)
    ensures Backed(Act(c, e, shutdown, clock, d.out), d) <==> AcksSoundEvent(c, e, d)
  {
    var c1 := Apply(c, e, clock, d.out);
    ApplyBacksIff(c, e, clock, d.out, d);
    AfterEventIsQuiet(c1, shutdown, clock);
    QuietlyIsSame(c1, c1.AfterEvent(shutdown, clock), d);
  }

  // ---------------------------------------------------------------- before the peer exists

  /** An initiator whose SYN no one has answered. */
  ghost predicate Alone(a: Conn) {
    Local(a) && a.bufs.None? && a.endpoint.role == Initiator && BytesRead(a.readOut) == [] && Eof !in a.readOut
  }

  lemma DialIsAlone(cfg: Config, cidSend: u16, cidRecv: u16, synNum: u16, clock: Clock)
    requires cfg.maxPacketSize > 0
    ensures Alone(Dial(cfg, cidSend, cidRecv, synNum, clock))
  {
  }

  /** Accepting the SYN establishes the invariant of the pair. */
  lemma AcceptPairs(a: Conn, cfg: Config, cidSend: u16, cidRecv: u16, syn: Packet, synAck: u16, clock: Clock)
    requires Alone(a) && cfg.maxPacketSize > 0 && syn.header.seqNum == a.endpoint.synNum
    ensures var b := Accept(cfg, cidSend, cidRecv, syn, synAck, clock); Pair(a, b) && Trusted(a, b)
  {
    AcceptLocal(cfg, cidSend, cidRecv, syn, synAck, clock);
    AcceptLinked(a, Accept(cfg, cidSend, cidRecv, syn, synAck, clock));
  }

  lemma AcceptLocal(cfg: Config, cidSend: u16, cidRecv: u16, syn: Packet, synAck: u16, clock: Clock)
    requires cfg.maxPacketSize > 0
    ensures Local(Accept(cfg, cidSend, cidRecv, syn, synAck, clock))
  {
    var b := Accept(cfg, cidSend, cidRecv, syn, synAck, clock);
    FirstStateIsGenuine(b, syn.header.seqNum);
    FreshLocal(b, syn.header.seqNum);
  }

  lemma FirstStateIsGenuine(b: Conn, recvInit: u16)
    requires b.bufs == Some(FreshBuffers(b.cfg, recvInit, SendInit(b.endpoint))) && |b.out| == 1
    requires var p := b.out[0]; p.header.ptype == State && p.header.ackNum == recvInit && p.eack == None && Sendable(p)
    ensures OutOk(b.endpoint, b.bufs, b.out)
  {
    forall p | p in b.out ensures Genuine(b.endpoint, b.bufs, p) {
      assert p == b.out[0];
    }
  }

  /** A connection that has just got its buffers and has accepted nothing. */
  lemma FreshLocal(c: Conn, recvInit: u16)
    requires Shaped(c) && c.err.None? && OutOk(c.endpoint, c.bufs, c.out) && c.LocalFin().None?
    requires c.bufs == Some(FreshBuffers(c.cfg, recvInit, SendInit(c.endpoint)))
    requires c.pendingWrites == [] && c.accepted == [] && c.drafts == [] && c.results == []
    ensures Local(c)
  {
    FreshIsValid(c.cfg, recvInit, SendInit(c.endpoint));
    FreshConserves(c.bufs.value, [], []);
  }

  lemma AcceptLinked(a: Conn, b: Conn)
    requires a.bufs.None? && BytesRead(a.readOut) == [] && Eof !in a.readOut && a.RemoteFin().None?
    requires a.endpoint.role == Initiator && b.endpoint.role == Acceptor && a.endpoint.synNum == b.endpoint.synNum
    requires b.bufs.Some? && SentOf(b.bufs) == [] && b.readOut == [] && b.RemoteFin().None?
    requires var r := b.bufs.value.recv;
             r.init == a.endpoint.synNum && r.consumed == 0 && r.buf == [] && r.pending == map[]
    requires |b.out| == 1 && b.out[0].header.seqNum == b.endpoint.synAck
    ensures Linked(a, b) && Trusted(a, b)
  {
  }

  lemma StaysUnconnected(a: Conn, e: Event, shutdown: bool, clock: Clock)
    requires a.bufs.None? && CanAct(a, e, shutdown, clock, [])
    ensures Act(a, e, shutdown, clock, []).bufs.None? && Act(a, e, shutdown, clock, []).readOut == a.readOut
  {
    var a1 := Apply(a, e, clock, []);
    assert a1.bufs.None? && a1.readOut == a.readOut;
  }

  /** An unanswered initiator stays one, whatever happens to it: a would-be acceptor serves as its peer. */
  lemma AloneKeeps(a: Conn, e: Event, shutdown: bool, clock: Clock)
    requires Alone(a) && CanAct(a, e, shutdown, clock, [])
    ensures var a1 := Act(a, e, shutdown, clock, []); Alone(a1) && Progress(a, a1)
  {
    var b := Accept(a.cfg, 0, 0, a.SynPacket(clock), 1, clock);
    AcceptPairs(a, a.cfg, 0, 0, a.SynPacket(clock), 1, clock);
    ActKeeps(a, e, shutdown, clock, [], b);
    StaysUnconnected(a, e, shutdown, clock);
  }

  // ---------------------------------------------------------------- the system

  datatype System = Dialing(a: Conn) | Joined(a: Conn, b: Conn)

  /** A turn of one endpoint's event loop, or the acceptance of a SYN. */
  datatype Turn =
    | AtInitiator(event: Event, shutdown: bool, clock: Clock)
    | AtAcceptor(event: Event, shutdown: bool, clock: Clock)
    | Greet(cfg: Config, cidSend: u16, cidRecv: u16, syn: Packet, synAck: u16, clock: Clock)

  ghost predicate CanStep(s: System, x: Turn) {
    match x
    case AtInitiator(e, shutdown, clock) => CanAct(s.a, e, shutdown, clock, if s.Joined? then s.b.out else [])
    case AtAcceptor(e, shutdown, clock) => s.Joined? && CanAct(s.b, e, shutdown, clock, s.a.out)
    case Greet(cfg, _, _, syn, _, _) => s.Dialing? && cfg.maxPacketSize > 0 && syn in s.a.out && syn.header.ptype == Syn
  }

  ghost function Step(s: System, x: Turn): System
    requires CanStep(s, x)
  {
    match x
    case AtInitiator(e, shutdown, clock) =>
      if s.Joined? then Joined(Act(s.a, e, shutdown, clock, s.b.out), s.b)
        else Dialing(Act(s.a, e, shutdown, clock, []))
    case AtAcceptor(e, shutdown, clock) => Joined(s.a, Act(s.b, e, shutdown, clock, s.a.out))
    case Greet(cfg, cidSend, cidRecv, syn, synAck, clock) =>
      Joined(s.a, Accept(cfg, cidSend, cidRecv, OnWire(syn), synAck, clock))
  }

  ghost predicate Good(s: System) {
    if s.Dialing? then Alone(s.a) else Pair(s.a, s.b)
  }

  function Opposite(role: Role): Role {
    if role == Initiator then Acceptor else Initiator
  }

  predicate Has(s: System, role: Role) {
    s.Joined? || role == Initiator
  }

  /** The endpoint of the given role. */
  function At(s: System, role: Role): Conn
    requires Has(s, role)
  {
    if role == Initiator then s.a else s.b
  }

  function Peer(s: System, role: Role): Conn
    requires s.Joined?
  {
    At(s, Opposite(role))
  }

  /** What the endpoint of the role has assembled is what its peer sent. */
  predicate ReadsRight(s: System, role: Role) {
    s.Joined? ==> Assembled(At(s, role), Peer(s, role))
  }

  /** What it takes for acked, its peer has received. */
  predicate AcksRight(s: System, role: Role) {
    s.Joined? ==> Backed(At(s, role), Peer(s, role))
  }

  predicate RightAt(s: System, role: Role) {
    ReadsRight(s, role) && AcksRight(s, role)
  }

  /** What each has read is the other's, and what each takes for acked the other has. */
  ghost predicate Honest(s: System) {
    forall role :: RightAt(s, role)
  }

  /** Neither endpoint goes back, and an acceptor stays. */
  predicate Forward(s: System, t: System) {
    Progress(s.a, t.a) && (s.Joined? ==> t.Joined? && Progress(s.b, t.b))
  }

  lemma StepKeeps(s: System, x: Turn)
    requires Good(s) && CanStep(s, x)
    ensures Good(Step(s, x)) && Forward(s, Step(s, x))
  {
    match x
    case AtInitiator(e, shutdown, clock) =>
      if s.Joined? {
        ActKeeps(s.a, e, shutdown, clock, s.b.out, s.b);
        SameKeeps(s.b, s.a);
      } else {
        AloneKeeps(s.a, e, shutdown, clock);
      }
    case AtAcceptor(e, shutdown, clock) =>
      ActKeeps(s.b, e, shutdown, clock, s.a.out, s.a);
      SameKeeps(s.a, s.b);
    case Greet(cfg, cidSend, cidRecv, syn, synAck, clock) =>
      assert Genuine(s.a.endpoint, s.a.bufs, syn);
      AcceptPairs(s.a, cfg, cidSend, cidRecv, OnWire(syn), synAck, clock);
      SameKeeps(s.a, Step(s, x).b);
  }

  /** The event of the turn, if it is one of the endpoint of the role. */
  function EventAt(x: Turn, role: Role): Option<Event> {
    match x
    case AtInitiator(e, _, _) => if role == Initiator then Some(e) else None
    case AtAcceptor(e, _, _) => if role == Acceptor then Some(e) else None
    case Greet(_, _, _, _, _, _) => None
  }

  /** If the endpoint of the role takes in a packet, what the wire made of it does its stream no harm. */
  ghost predicate StreamSoundTurn(s: System, x: Turn, role: Role) {
    s.Joined? && EventAt(x, role).Some? && At(s, role).Valid() ==>
      StreamSoundEvent(At(s, role), EventAt(x, role).value)
  }

  /** Likewise, it does its acks no harm. */
  predicate AcksSoundTurn(s: System, x: Turn, role: Role) {
    s.Joined? && EventAt(x, role).Some? ==> AcksSoundEvent(At(s, role), EventAt(x, role).value, Peer(s, role))
  }

  ghost predicate SoundAt(s: System, x: Turn, role: Role) {
    StreamSoundTurn(s, x, role) && AcksSoundTurn(s, x, role)
  }

  ghost predicate SoundTurn(s: System, x: Turn) {
    forall role :: SoundAt(s, x, role)
  }

  /** The turn is one of the endpoint of the role, and leaves its peer alone. */
  lemma TurnOf(s: System, x: Turn, role: Role)
    requires s.Joined? && CanStep(s, x) && EventAt(x, role).Some?
    ensures CanAct(At(s, role), x.event, x.shutdown, x.clock, Peer(s, role).out) && Step(s, x).Joined?
    ensures At(Step(s, x), role) == Act(At(s, role), x.event, x.shutdown, x.clock, Peer(s, role).out)
    ensures Peer(Step(s, x), role) == Peer(s, role)
  {
  }

  /** A turn of its peer spoils nothing at the endpoint of the role. */
  lemma PeerTurn(s: System, x: Turn, role: Role)
    requires Good(s) && s.Joined? && CanStep(s, x) && EventAt(x, Opposite(role)).Some?
    ensures ReadsRight(s, role) ==> ReadsRight(Step(s, x), role)
    ensures AcksRight(s, role) ==> AcksRight(Step(s, x), role)
  {
    var c, d := Peer(s, role), At(s, role);
    TurnOf(s, x, Opposite(role));
    ActKeeps(c, x.event, x.shutdown, x.clock, d.out, d);
    PeerStaysRight(c, Act(c, x.event, x.shutdown, x.clock, d.out), d);
  }

  lemma GreetIsHonest(s: System, x: Turn, role: Role)
    requires Good(s) && CanStep(s, x) && x.Greet?
    ensures ReadsRight(Step(s, x), role) && AcksRight(Step(s, x), role)
  {
    assert Genuine(s.a.endpoint, s.a.bufs, x.syn);
    AcceptPairs(s.a, x.cfg, x.cidSend, x.cidRecv, OnWire(x.syn), x.synAck, x.clock);
  }

  lemma OwnTurnReadsRightIff(s: System, x: Turn, role: Role)
    requires Good(s) && s.Joined? && ReadsRight(s, role) && CanStep(s, x) && EventAt(x, role).Some?
    ensures ReadsRight(Step(s, x), role) <==> StreamSoundTurn(s, x, role)
  {
    TurnOf(s, x, role);
    ActAssemblesIff(At(s, role), x.event, x.shutdown, x.clock, Peer(s, role));
  }

  lemma OwnTurnAcksRightIff(s: System, x: Turn, role: Role)
    requires Good(s) && s.Joined? && AcksRight(s, role) && CanStep(s, x) && EventAt(x, role).Some?
    ensures AcksRight(Step(s, x), role) <==> AcksSoundTurn(s, x, role)
  {
    TurnOf(s, x, role);
    ActBacksIff(At(s, role), x.event, x.shutdown, x.clock, Peer(s, role));
  }

  /**
   * If an endpoint has assembled what its peer sent, then after a turn it still has if and only if what it takes in
   * does its stream no harm, whatever becomes of its acks and of its peer.
   */
  lemma StepReadsRightIff(s: System, x: Turn, role: Role)
    requires Good(s) && ReadsRight(s, role) && CanStep(s, x)
    ensures ReadsRight(Step(s, x), role) <==> StreamSoundTurn(s, x, role)
  {
    if x.Greet? {
      GreetIsHonest(s, x, role);
    } else if s.Joined? {
      if EventAt(x, role).Some? {
        OwnTurnReadsRightIff(s, x, role);
      } else {
        PeerTurn(s, x, role);
      }
    }
  }

  /** And if its acks are backed, they still are if and only if what it takes in does them no harm. */
  lemma StepAcksRightIff(s: System, x: Turn, role: Role)
    requires Good(s) && AcksRight(s, role) && CanStep(s, x)
    ensures AcksRight(Step(s, x), role) <==> AcksSoundTurn(s, x, role)
  {
    if x.Greet? {
      GreetIsHonest(s, x, role);
    } else if s.Joined? {
      if EventAt(x, role).Some? {
        OwnTurnAcksRightIff(s, x, role);
      } else {
        PeerTurn(s, x, role);
      }
    }
  }

  lemma StepRightIff(s: System, x: Turn, role: Role)
    requires Good(s) && RightAt(s, role) && CanStep(s, x)
    ensures RightAt(Step(s, x), role) <==> SoundAt(s, x, role)
  {
    StepReadsRightIff(s, x, role);
    StepAcksRightIff(s, x, role);
  }

  /** From an honest state, a turn leads to an honest one if and only if it is sound. */
  lemma StepIsHonestIff(s: System, x: Turn)
    requires Good(s) && Honest(s) && CanStep(s, x)
    ensures Honest(Step(s, x)) <==> SoundTurn(s, x)
  {
    forall role ensures RightAt(Step(s, x), role) <==> SoundAt(s, x, role) {
      StepRightIff(s, x, role);
    }
  }

  // ---------------------------------------------------------------- runs

  ghost predicate Starts(s: System) {
    s.Dialing? && exists cfg: Config, cidSend: u16, cidRecv: u16, synNum: u16, clock: Clock ::
      cfg.maxPacketSize > 0 && s.a == Dial(cfg, cidSend, cidRecv, synNum, clock)
  }

  ghost predicate Moves(s: System, x: Turn, t: System) {
    CanStep(s, x) && t == Step(s, x)
  }

  /** The states of a run, and the turn between each and the next. */
  datatype Run = Run(states: seq<System>, turns: seq<Turn>) {
    ghost predicate Valid() {
      Traces(states, turns, Moves) && Starts(states[0])
    }

    /** Every packet that arrives at the endpoint of the role in the first n turns does its stream no harm. */
    ghost predicate StreamSound(role: Role, n: nat) {
      AllFit(states, turns, (s, x) => StreamSoundTurn(s, x, role), n)
    }

    /** Likewise, does its acks no harm. */
    ghost predicate AcksSound(role: Role, n: nat) {
      AllFit(states, turns, (s, x) => AcksSoundTurn(s, x, role), n)
    }

    ghost predicate Sound(n: nat) {
      forall role :: StreamSound(role, n) && AcksSound(role, n)
    }

    ghost predicate ReadsRightUpTo(role: Role, n: nat) {
      AllHold(states, s => ReadsRight(s, role), n)
    }

    ghost predicate AcksRightUpTo(role: Role, n: nat) {
      AllHold(states, s => AcksRight(s, role), n)
    }

    ghost predicate HonestUpTo(n: nat) {
      AllHold(states, Honest, n)
    }
  }

  lemma StartIsGood(s: System)
    requires Starts(s)
    ensures Good(s) && Honest(s)
  {
    var cfg: Config, cidSend: u16, cidRecv: u16, synNum: u16, clock: Clock :|
      cfg.maxPacketSize > 0 && s.a == Dial(cfg, cidSend, cidRecv, synNum, clock);
    DialIsAlone(cfg, cidSend, cidRecv, synNum, clock);
  }

  lemma MovesKeep(s: System, x: Turn, t: System)
    requires Good(s) && Moves(s, x, t)
    ensures Good(t) && Forward(s, t)
  {
    StepKeeps(s, x);
  }

  lemma ForwardIsTransitive(s: System, t: System, u: System)
    requires Forward(s, t) && Forward(t, u)
    ensures Forward(s, u)
  {
    ProgressIsTransitive(s.a, t.a, u.a);
    if s.Joined? {
      ProgressIsTransitive(s.b, t.b, u.b);
    }
  }

  lemma SelfForward(s: System)
    ensures Forward(s, s)
  {
  }

  /** The invariant holds in every state of every run. */
  lemma RunKeeps(run: Run, i: nat)
    requires run.Valid() && i < |run.states|
    ensures Good(run.states[i])
  {
    StartIsGood(run.states[0]);
    forall s, x, t | Good(s) && Moves(s, x, t) ensures Good(t) {
      MovesKeep(s, x, t);
    }
    Invariance(run.states, run.turns, Moves, Good, i);
  }

  /** Nothing that happened is ever taken back. */
  lemma RunGoesForward(run: Run, i: nat, j: nat)
    requires run.Valid() && i <= j < |run.states|
    ensures Forward(run.states[i], run.states[j])
  {
    StartIsGood(run.states[0]);
    forall s, x, t | Good(s) && Moves(s, x, t) ensures Good(t) && Forward(s, t) {
      MovesKeep(s, x, t);
    }
    forall s ensures Forward(s, s) {
      SelfForward(s);
    }
    forall s, t, u | Forward(s, t) && Forward(t, u) ensures Forward(s, u) {
      ForwardIsTransitive(s, t, u);
    }
    Monotony(run.states, run.turns, Moves, Good, Forward, i, j);
  }

  /** Turn i of a run, and the states on both sides of it. */
  lemma RunSteps(run: Run, i: nat)
    requires run.Valid() && i < |run.turns|
    ensures Good(run.states[i]) && CanStep(run.states[i], run.turns[i])
    ensures run.states[i + 1] == Step(run.states[i], run.turns[i])
  {
    RunKeeps(run, i);
    assert Moves(run.states[i], run.turns[i], run.states[i + 1]);
  }

  /**
   * What an endpoint has assembled is what its peer sent, in all states up to one, if and only if every packet that
   * arrived at it before could not be decoded, had the right extension byte, or had a body that was not taken.
   */
  lemma RunReadsRightIff(run: Run, role: Role, n: nat)
    requires run.Valid() && n < |run.states|
    ensures run.ReadsRightUpTo(role, n) <==> run.StreamSound(role, n)
  {
    StartIsGood(run.states[0]);
    var holds, fits := (s: System) => ReadsRight(s, role), (s: System, x: Turn) => StreamSoundTurn(s, x, role);
    forall i | 0 <= i < n && holds(run.states[i])
      ensures holds(run.states[i + 1]) <==> fits(run.states[i], run.turns[i])
    {
      RunSteps(run, i);
      StepReadsRightIff(run.states[i], run.turns[i], role);
    }
    HoldsWhileFits(run.states, run.turns, holds, fits, n);
  }

  /** What it takes for acked has been received if and only if the bitmaps that arrived named only what was. */
  lemma RunAcksRightIff(run: Run, role: Role, n: nat)
    requires run.Valid() && n < |run.states|
    ensures run.AcksRightUpTo(role, n) <==> run.AcksSound(role, n)
  {
    StartIsGood(run.states[0]);
    var holds, fits := (s: System) => AcksRight(s, role), (s: System, x: Turn) => AcksSoundTurn(s, x, role);
    forall i | 0 <= i < n && holds(run.states[i])
      ensures holds(run.states[i + 1]) <==> fits(run.states[i], run.turns[i])
    {
      RunSteps(run, i);
      StepAcksRightIff(run.states[i], run.turns[i], role);
    }
    HoldsWhileFits(run.states, run.turns, holds, fits, n);
  }

  /** What is read and what is acked can be trusted up to a state if and only if every packet that arrived was sound. */
  lemma RunIsHonestIff(run: Run, n: nat)
    requires run.Valid() && n < |run.states|
    ensures run.HonestUpTo(n) <==> run.Sound(n)
  {
    forall role
      ensures run.ReadsRightUpTo(role, n) <==> run.StreamSound(role, n)
      ensures run.AcksRightUpTo(role, n) <==> run.AcksSound(role, n)
    {
      RunReadsRightIff(run, role, n);
      RunAcksRightIff(run, role, n);
    }
    HonestIsFour(run, n);
  }

  lemma HonestIsFour(run: Run, n: nat)
    requires n < |run.states|
    ensures run.HonestUpTo(n) <==> forall role :: run.ReadsRightUpTo(role, n) && run.AcksRightUpTo(role, n)
  {
    if run.HonestUpTo(n) {
      forall role ensures run.ReadsRightUpTo(role, n) && run.AcksRightUpTo(role, n) {
        assert forall i :: 0 <= i <= n ==> Honest(run.states[i]) && RightAt(run.states[i], role);
      }
    }
    if forall role :: run.ReadsRightUpTo(role, n) && run.AcksRightUpTo(role, n) {
      forall i | 0 <= i <= n ensures Honest(run.states[i]) {
        forall role ensures RightAt(run.states[i], role) {
          assert run.ReadsRightUpTo(role, n) && run.AcksRightUpTo(role, n);
        }
      }
    }
  }

  lemma SoundByTurns(run: Run, n: nat)
    requires n <= |run.turns| <= |run.states|
    requires forall i :: 0 <= i < n ==> SoundTurn(run.states[i], run.turns[i])
    ensures run.Sound(n)
  {
    forall role ensures run.StreamSound(role, n) && run.AcksSound(role, n) {
      forall i | 0 <= i < n ensures SoundAt(run.states[i], run.turns[i], role) {
        assert SoundTurn(run.states[i], run.turns[i]);
      }
    }
  }
}
