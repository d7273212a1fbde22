/** What endpoints tell each other of their delays, and what their controllers make of it. */
module Lags {
  import opened Words
  import opened Collections
  import opened Packets
  import Congestion
  import opened Sending
  import opened Connections
  import opened Invariants
  import opened Arrivals
  import opened Protocol
  import opened Theorems
  import opened Extensions

  // ---------------------------------------------------------------- the lag of the peer

  /** A connection that takes its peer to be one second behind. */
  predicate Stuck(c: Conn) {
    c.peerTsDiff == 1_000_000
  }

  /** If the event brings a packet, the difference that the code forms exceeds its cap. */
  predicate Late(c: Conn, e: Event, clock: Clock) {
    Brought(e).Some? ==> (clock.micros - Brought(e).value.header.tsDiff) * 1000 > c.cfg.maxIdleTimeout
  }

  /**
   * The code subtracts from its clock the lag that the peer reports, not the time at which the peer sent. A clock that
   * counts from 1970 always exceeds the cap, so from the first packet on every STATE and DATA reports one second.
   */
  lemma ActSticks(c: Conn, e: Event, shutdown: bool, clock: Clock, wire: seq<Packet>)
    requires CanAct(c, e, shutdown, clock, wire) && Late(c, e, clock) && (Stuck(c) || Brought(e).Some?)
    ensures var c1 := Act(c, e, shutdown, clock, wire); Stuck(c1) && Reports(c.out, c1.out, 1_000_000)
  {
    LateIsStuck(c, e, clock);
    ActAdds(c, e, shutdown, clock, wire);
  }

  lemma LateIsStuck(c: Conn, e: Event, clock: Clock)
    requires Late(c, e, clock) && (Stuck(c) || Brought(e).Some?)
    ensures Stuck(Noticing(c, e, clock)) && Noticing(c, e, clock).TsDiff() == 1_000_000
  {
  }

  predicate LateTurn(s: System, x: Turn, role: Role) {
    match x
    case AtInitiator(e, _, clock) => role == Initiator ==> Late(s.a, e, clock)
    case AtAcceptor(e, _, clock) => role == Acceptor && s.Joined? ==> Late(s.b, e, clock)
    case Greet(_, _, _, _, _, _) => true
  }

  lemma StepSticks(s: System, x: Turn, role: Role)
    requires s.Joined? && CanStep(s, x) && LateTurn(s, x, role) && Stuck(At(s, role))
    ensures Step(s, x).Joined?
    ensures var c, c1 := At(s, role), At(Step(s, x), role); Stuck(c1) && Reports(c.out, c1.out, 1_000_000)
  {
    match x
    case AtInitiator(e, shutdown, clock) =>
      if role == Initiator { ActSticks(s.a, e, shutdown, clock, s.b.out); }
    case AtAcceptor(e, shutdown, clock) =>
      if role == Acceptor { ActSticks(s.b, e, shutdown, clock, s.a.out); }
  }

  /** Over whole runs: between two states, an endpoint that was stuck sends no STATE or DATA with any other lag. */
  lemma {:induction false} LagSticks(run: Run, i: nat, j: nat, role: Role)
    requires run.Valid() && Reaches(run, i) && i <= j < |run.states| && Stuck(At(run.states[i], role))
    requires forall k :: i <= k < j ==> LateTurn(run.states[k], run.turns[k], role)
    ensures Reaches(run, j) && Stuck(At(run.states[j], role))
    ensures Reports(At(run.states[i], role).out, At(run.states[j], role).out, 1_000_000)
    decreases j
  {
    if i < j {
      LagSticks(run, i, j - 1, role);
      assert Moves(run.states[j - 1], run.turns[j - 1], run.states[j]);
      StepSticks(run.states[j - 1], run.turns[j - 1], role);
      ReportsOn(At(run.states[i], role).out, At(run.states[j - 1], role).out, At(run.states[j], role).out, 1_000_000);
    }
  }

  // ---------------------------------------------------------------- what an initiator reports

  /** All that was ever sent reports one second, or, if it is a FIN, perhaps none. */
  predicate Prompted(c: Conn) {
    (c.bufs.Some? ==> Stuck(c)) && forall p :: p in c.out ==> Stamped(p, 1_000_000)
  }

  lemma AddedArePrompted(out: seq<Packet>, out1: seq<Packet>)
    requires Reports(out, out1, 1_000_000) && forall p :: p in out ==> Stamped(p, 1_000_000)
    ensures forall p :: p in out1 ==> Stamped(p, 1_000_000)
  {
    forall p | p in out1 ensures Stamped(p, 1_000_000) {
      var k :| 0 <= k < |out1| && out1[k] == p;
      assert k < |out| ==> out[k] == p;
    }
  }

  /** Only a packet connects. */
  lemma NothingConnects(c: Conn, e: Event, shutdown: bool, clock: Clock, wire: seq<Packet>)
    requires c.bufs.None? && CanAct(c, e, shutdown, clock, wire) && Brought(e).None?
    ensures Act(c, e, shutdown, clock, wire).bufs.None?
  {
    assert Apply(c, e, clock, wire).bufs.None?;
  }

  lemma SynsArePrompted(c: Conn)
    requires Local(c) && c.bufs.None?
    ensures Prompted(c)
  {
    forall p | p in c.out ensures Stamped(p, 1_000_000) {
      assert Genuine(c.endpoint, c.bufs, p);
    }
  }

  lemma ActPrompts(c: Conn, e: Event, shutdown: bool, clock: Clock, wire: seq<Packet>)
    requires Prompted(c) && CanAct(c, e, shutdown, clock, wire) && Late(c, e, clock)
    requires Local(Act(c, e, shutdown, clock, wire))
    ensures Prompted(Act(c, e, shutdown, clock, wire))
  {
    if c.bufs.None? && Brought(e).None? {
      NothingConnects(c, e, shutdown, clock, wire);
      SynsArePrompted(Act(c, e, shutdown, clock, wire));
    } else {
      ActSticks(c, e, shutdown, clock, wire);
      AddedArePrompted(c.out, Act(c, e, shutdown, clock, wire).out);
    }
  }

  /** Each of the first n turns of the endpoint of the role is late. */
  predicate IsLate(run: Run, role: Role, n: nat) {
    n <= |run.turns| <= |run.states| && forall k :: 0 <= k < n ==> LateTurn(run.states[k], run.turns[k], role)
  }

  lemma StepPrompts(s: System, x: Turn)
    requires Good(s) && Prompted(s.a) && CanStep(s, x) && LateTurn(s, x, Initiator)
    ensures Prompted(Step(s, x).a)
  {
    StepKeeps(s, x);
    if x.AtInitiator? {
      ActPrompts(s.a, x.event, x.shutdown, x.clock, if s.Joined? then s.b.out else []);
    }
  }

  lemma StartIsPrompted(s: System)
    requires Starts(s)
    ensures Prompted(s.a)
  {
    StartIsGood(s);
    SynsArePrompted(s.a);
  }

  /** An initiator that is always late has never reported anything else. */
  lemma {:induction false} InitiatorIsPrompted(run: Run, n: nat)
    requires run.Valid() && n < |run.states| && IsLate(run, Initiator, n)
    ensures Prompted(run.states[n].a)
  {
    if n == 0 {
      StartIsPrompted(run.states[0]);
    } else {
      InitiatorIsPrompted(run, n - 1);
      RunSteps(run, n - 1);
      StepPrompts(run.states[n - 1], run.turns[n - 1]);
    }
  }

  // ---------------------------------------------------------------- what a controller is told

  function Samples(c: Conn): seq<Congestion.Sample> {
    if c.bufs.Some? then c.bufs.value.sent.ctrl.samples else []
  }

  /** All samples between the two have the value. */
  predicate Hears(a: seq<Congestion.Sample>, b: seq<Congestion.Sample>, value: int) {
    a <= b && forall k :: |a| <= k < |b| ==> b[k].value == value
  }

  lemma HearsOn(a: seq<Congestion.Sample>, b: seq<Congestion.Sample>, c: seq<Congestion.Sample>, value: int)
    requires Hears(a, b, value) && Hears(b, c, value)
    ensures Hears(a, c, value)
  {
    forall k | |a| <= k < |c| ensures c[k].value == value {
      if k < |b| {
        assert c[k] == b[k];
      }
    }
  }

  lemma AckOneHears(s: SentState, q: u16, delay: int, clock: Clock)
    requires Index(s.init, q) < |s.packets|
    ensures Hears(s.ctrl.samples, s.AckOne(q, delay, clock).ctrl.samples, delay)
  {
  }

  lemma {:induction false} AckAllHears(s: SentState, qs: seq<u16>, delay: int, clock: Clock)
    requires forall q :: q in qs ==> Index(s.init, q) < |s.packets|
    ensures Hears(s.ctrl.samples, s.AckAll(qs, delay, clock).ctrl.samples, delay)
    decreases |qs|
  {
    if qs != [] {
      var s1 := s.AckOne(qs[0], delay, clock);
      AckOneHears(s, qs[0], delay, clock);
      AckAllHears(s1, qs[1..], delay, clock);
      HearsOn(s.ctrl.samples, s1.ctrl.samples, s1.AckAll(qs[1..], delay, clock).ctrl.samples, delay);
    }
  }

  lemma {:induction false} MarkLostHearsNothing(s: SentState, qs: seq<u16>)
    ensures s.MarkLost(qs).ctrl.samples == s.ctrl.samples
    decreases |qs|
  {
    if qs != [] {
      MarkLostHearsNothing(s.(lost := s.lost + {qs[0]}, ctrl := s.ctrl.OnLost(qs[0], true).ctrl), qs[1..]);
    }
  }

  lemma SettlePriorHears(s: SentState, first: u16, ackNum: u16, delay: int, clock: Clock)
    requires s.Numbered() && Index(s.init, first) < |s.packets| && Index(s.init, ackNum) < |s.packets|
    ensures Hears(s.ctrl.samples, s.SettlePrior(first, ackNum, delay, clock).ctrl.samples, delay)
  {
    var lo, hi := Index(s.init, first), Index(s.init, ackNum);
    BetweenAreSent(s, lo, Max(lo, hi));
    var s2 := if lo >= hi then s else s.AckAll(s.Between(lo, hi), delay, clock);
    if lo < hi {
      AckAllHears(s, s.Between(lo, hi), delay, clock);
    }
    MarkLostHearsNothing(s2, Detect(s2.packets[lo..]));
  }

  /** Every packet newly acked is one more sample of the delay that the ack reports. */
  lemma OnAckHears(s: SentState, ackNum: u16, sack: Option<SelectiveAck>, delay: int, clock: Clock)
    requires s.Core()
    ensures Hears(s.ctrl.samples, s.OnAck(ackNum, sack, delay, clock).0.ctrl.samples, delay)
  {
    if s.InRange(ackNum) && ackNum != s.init {
      InRangeIsSent(s, ackNum);
      NamedEffect(s, ackNum, sack, delay, clock);
      var s1 := s.AckAll(s.Named(ackNum, sack), delay, clock);
      AckAllHears(s, s.Named(ackNum, sack), delay, clock);
      FirstUnackedIsGap(s1);
      var first := s1.FirstUnacked();
      if first.Some? {
        SettlePriorHears(s1, first.value, ackNum, delay, clock);
        HearsOn(s.ctrl.samples, s1.ctrl.samples, s1.SettlePrior(first.value, ackNum, delay, clock).ctrl.samples, delay);
      }
    }
  }

  // ---------------------------------------------------------------- handlers that tell it nothing

  lemma TransmitHearsNothing(c: Conn, p: Packet, clock: Clock)
    requires c.bufs.Some? && c.CanTransmit(p)
    ensures Samples(c.Transmit(p, clock)) == Samples(c)
  {
  }

  lemma {:induction false} ResendAllHearsNothing(c: Conn, lost: set<u16>, clock: Clock)
    requires c.Valid() && c.Resendable(lost)
    ensures Samples(c.ResendAll(lost, clock)) == Samples(c)
    decreases |lost|
  {
    if lost != {} {
      var q := Smallest(lost);
      ResendNext(c, lost, q, clock);
      TransmitHearsNothing(c, c.Repeat(q, clock), clock);
      ResendAllHearsNothing(c.Transmit(c.Repeat(q, clock), clock), lost - {q}, clock);
    }
  }

  lemma {:induction false} SendAllHearsNothing(c: Conn, payloads: seq<seq<u8>>, seqNum: u16, clock: Clock)
    requires c.Valid() && c.bufs.Some? && seqNum == c.bufs.value.sent.NextSeqNum()
    requires |c.bufs.value.sent.packets| + |payloads| <= MAX_PACKETS
    requires payloads == [] || c.bufs.value.sent.ctrl.window + |Join(payloads)| <= c.bufs.value.sent.ctrl.maxWindow
    ensures Samples(c.SendAll(payloads, seqNum, clock)) == Samples(c)
    decreases |payloads|
  {
    if payloads != [] {
      SendFits(c, payloads, clock);
      var c1 := c.Transmit(c.Stamped(Data, seqNum, c.TsDiff(), payloads[0], clock), clock);
      SendAllHearsNothing(c1, payloads[1..], Add(seqNum, 1), clock);
    }
  }

  lemma ProcessWritesHearsNothing(c: Conn, clock: Clock)
    requires c.Valid() && c.HasNumbers()
    ensures Samples(c.ProcessWrites(clock)) == Samples(c)
  {
    if c.stateType == Connected {
      PayloadsFit(c);
      var cut := c.NextPayloads();
      RefillIsValid(cut.send, c.pendingWrites, c.results);
      var r := Refill(cut.send, c.pendingWrites, c.results);
      var c0 := c.(bufs := Some(c.bufs.value.(send := r.send)), pendingWrites := r.writes, results := r.results);
      SendAllHearsNothing(c0, cut.payloads, c.bufs.value.sent.NextSeqNum(), clock);
    }
  }

  lemma OnTimeoutHearsNothing(c: Conn, p: Packet, clock: Clock)
    requires c.Valid() && c.CanResend(p)
    ensures Samples(c.OnTimeout(p, clock)) == Samples(c)
  {
    if c.stateType == Connected && p.header.ptype != Syn {
      SlowedIsValid(c, clock);
      RenewedFits(c.Slowed(clock), p, clock);
      TransmitHearsNothing(c.Slowed(clock), c.Slowed(clock).Renewed(p, clock), clock);
    }
  }

  lemma ShutdownHearsNothing(c: Conn, clock: Clock)
    requires c.Valid() && c.CanFin()
    ensures Samples(c.Shutdown(clock)) == Samples(c)
  {
    if c.WantsFin() {
      FinFits(c, clock);
    }
  }

  lemma AfterEventHearsNothing(c: Conn, shutdown: bool, clock: Clock)
    requires c.Valid() && (shutdown ==> c.CanFin())
    ensures Samples(c.AfterEvent(shutdown, clock)) == Samples(c)
  {
    var c1 := if shutdown && c.stateType != Closed then c.Shutdown(clock) else c;
    if shutdown && c.stateType != Closed {
      ShutdownHearsNothing(c, clock);
    }
    if c1.stateType == Closed {
      ProcessWritesHearsNothing(c1, clock);
    }
  }

  lemma {:induction false} DeliverHearsNothing(c: Conn)
    requires c.bufs.Some?
    ensures Samples(c.Deliver()) == Samples(c)
    decreases |c.bufs.value.recv.buf|
  {
    if Min(c.cfg.maxPacketSize, |c.bufs.value.recv.buf|) != 0 {
      DeliverHearsNothing(c.HandOver());
    }
  }

  lemma ProcessReadsHearsNothing(c: Conn)
    requires c.Valid()
    ensures Samples(c.ProcessReads()) == Samples(c)
  {
    if c.stateType == Connected {
      DeliverHearsNothing(c);
    }
  }

  lemma ConcludeHearsNothing(c: Conn)
    requires c.Valid()
    ensures Samples(c.Conclude()) == Samples(c)
  {
    ProcessReadsHearsNothing(c.CloseIfAcked());
  }

  lemma RespondHearsNothing(c: Conn, g: Packet, clock: Clock)
    requires c.Valid()
    ensures Samples(c.Respond(g, clock)) == Samples(c)
  {
    var c1 := c.Respond(g, clock);
    assert c1 == c.(synState := c1.synState, out := c1.out);
  }

  lemma AnswerHearsNothing(c: Conn, g: Packet, clock: Clock)
    requires c.Valid() && c.CanRetransmit()
    ensures Samples(c.Answer(g, clock)) == Samples(c)
  {
    if c.stateType == Connected {
      ResendAllHearsNothing(c, c.bufs.value.sent.lost, clock);
    }
    RespondHearsNothing(c.RetransmitLost(clock), g, clock);
    ConcludeHearsNothing(c.RetransmitLost(clock).Respond(g, clock));
  }

  // ---------------------------------------------------------------- turns

  predicate CarriesAck(p: Packet) {
    p.header.ptype == State || p.header.ptype == Data || p.header.ptype == Fin
  }

  /** If the event brings an ack, it reports one of these lags. */
  predicate Told(e: Event, lags: set<u32>) {
    Brought(e).Some? && CarriesAck(Brought(e).value) ==> Brought(e).value.header.tsDiff in lags
  }

  /** Each sample is a report of one of these lags. */
  predicate Among(samples: seq<Congestion.Sample>, lags: set<u32>) {
    forall s :: s in samples ==> exists lag :: lag in lags && s.value == lag * 1000
  }

  lemma AddedAreAmong(a: seq<Congestion.Sample>, b: seq<Congestion.Sample>, lag: u32, lags: set<u32>)
    requires Among(a, lags) && Hears(a, b, lag * 1000) && lag in lags
    ensures Among(b, lags)
  {
    forall s | s in b ensures exists lag :: lag in lags && s.value == lag * 1000 {
      var k :| 0 <= k < |b| && b[k] == s;
      if k < |a| {
        assert a[k] in a && a[k] == b[k];
      }
    }
  }

  lemma AcknowledgeHears(c: Conn, g: Packet, clock: Clock)
    requires c.Valid()
    ensures if CarriesAck(g) then Hears(Samples(c), Samples(c.Acknowledge(g, clock)), g.header.tsDiff * 1000)
            else Samples(c.Acknowledge(g, clock)) == Samples(c)
  {
    if CarriesAck(g) && c.stateType == Connected {
      OnAckHears(c.bufs.value.sent, g.header.ackNum, g.eack, g.header.tsDiff * 1000, clock);
    }
  }

  /** A new connection starts without samples. */
  lemma DispatchHearsNothing(c: Conn, g: Packet)
    requires c.Valid()
    ensures Samples(c.Dispatch(g)) == Samples(c) || Samples(c.Dispatch(g)) == []
  {
  }

  lemma HandledHears(c: Conn, g: Packet, clock: Clock, lags: set<u32>)
    requires c.Valid() && Among(Samples(c), lags) && (CarriesAck(g) ==> g.header.tsDiff in lags)
    ensures Among(Samples(c.Handled(g, clock)), lags)
  {
    var c1 := c.Observe(g, clock);
    DispatchIsValid(c1, g);
    DispatchHearsNothing(c1, g);
    var c2 := c1.Dispatch(g);
    AcknowledgeHears(c2, g, clock);
    if CarriesAck(g) {
      AddedAreAmong(Samples(c2), Samples(c2.Acknowledge(g, clock)), g.header.tsDiff, lags);
    }
  }

  lemma OnPacketHears(c: Conn, g: Packet, clock: Clock, lags: set<u32>)
    requires c.Valid() && CanHandle(c, g, clock) && Among(Samples(c), lags)
    requires CarriesAck(g) ==> g.header.tsDiff in lags
    ensures Among(Samples(c.OnPacket(g, clock)), lags)
  {
    HandledHears(c, g, clock, lags);
    AnswerHearsNothing(c.Handled(g, clock), g, clock);
  }

  lemma ApplyHearsNothing(c: Conn, e: Event, clock: Clock, wire: seq<Packet>)
    requires c.Valid() && Possible(c, e, clock, wire) && (Inward(e) || e.Fetch?)
    ensures Samples(Apply(c, e, clock, wire)) == Samples(c)
  {
    match e
    case Submit(id, data) => ProcessWritesHearsNothing(c.Enqueue(id, data), clock);
    case Fetch => ProcessReadsHearsNothing(c);
    case Flush => ProcessWritesHearsNothing(c, clock);
    case Expire(p) => OnTimeoutHearsNothing(c, p, clock);
    case Ask =>
    case Silence =>
    case Scribble(_, _, _) =>
  }

  lemma ApplyHears(c: Conn, e: Event, clock: Clock, wire: seq<Packet>, lags: set<u32>)
    requires c.Valid() && Possible(c, e, clock, wire) && Told(e, lags) && Among(Samples(c), lags)
    ensures Among(Samples(Apply(c, e, clock, wire)), lags)
  {
    if e.Arrive? {
      if FromWire(e.sent).Ok? {
        OnPacketHears(c, FromWire(e.sent).value, clock, lags);
      }
    } else if e.Interfere? {
      OnPacketHears(c, e.reset, clock, lags);
    } else {
      ApplyHearsNothing(c, e, clock, wire);
    }
  }

  lemma ActHears(c: Conn, e: Event, shutdown: bool, clock: Clock, wire: seq<Packet>, lags: set<u32>)
    requires CanAct(c, e, shutdown, clock, wire) && Told(e, lags) && Among(Samples(c), lags)
    ensures Among(Samples(Act(c, e, shutdown, clock, wire)), lags)
  {
    ApplyHears(c, e, clock, wire, lags);
    AfterEventHearsNothing(Apply(c, e, clock, wire), shutdown, clock);
  }

  // ---------------------------------------------------------------- runs

  /** Every ack that arrives at the endpoint of the role in the first n turns reports one of these lags. */
  predicate IsTold(run: Run, role: Role, n: nat, lags: set<u32>) {
    n <= |run.turns| && forall k :: 0 <= k < n ==>
      (EventAt(run.turns[k], role).Some? ==> Told(EventAt(run.turns[k], role).value, lags))
  }

  lemma StepHears(s: System, x: Turn, role: Role, lags: set<u32>)
    requires CanStep(s, x) && (Has(s, role) ==> Among(Samples(At(s, role)), lags))
    requires EventAt(x, role).Some? ==> Told(EventAt(x, role).value, lags)
    ensures Has(Step(s, x), role) ==> Among(Samples(At(Step(s, x), role)), lags)
  {
    match x
    case AtInitiator(e, shutdown, clock) =>
      if role == Initiator { ActHears(s.a, e, shutdown, clock, if s.Joined? then s.b.out else [], lags); }
    case AtAcceptor(e, shutdown, clock) =>
      if role == Acceptor { ActHears(s.b, e, shutdown, clock, s.a.out, lags); }
    case Greet(_, _, _, _, _, _) =>
  }

  /** In every run, the delays that a controller has for samples are lags that the peer has reported, and no others. */
  lemma {:induction false} SamplesAreReports(run: Run, role: Role, n: nat, lags: set<u32>)
    requires run.Valid() && n < |run.states| && IsTold(run, role, n, lags)
    ensures Has(run.states[n], role) ==> Among(Samples(At(run.states[n], role)), lags)
  {
    if n > 0 {
      SamplesAreReports(run, role, n - 1, lags);
      RunSteps(run, n - 1);
      StepHears(run.states[n - 1], run.turns[n - 1], role, lags);
    }
  }

  /** No FIN arrives at the acceptor, in the first n turns, that reports no lag. */
  predicate NoBareFin(run: Run, n: nat) {
    n <= |run.turns| && forall k :: 0 <= k < n ==> NoBareFinIn(run.turns[k])
  }

  lemma PromptedIsTold(c: Conn, p: Packet)
    requires Local(c) && Prompted(c) && p in c.out && WellFormed(p) && FromWire(p).Ok?
    ensures var g := FromWire(p).value;
            CarriesAck(g) ==> g.header.tsDiff == 1_000_000 || (g.header.ptype == Fin && g.header.tsDiff == 0)
  {
    assert Genuine(c.endpoint, c.bufs, p);
    WireEchoes(p);
  }

  /** The turn brings the acceptor no FIN that reports no lag. */
  predicate NoBareFinIn(x: Turn) {
    x.AtAcceptor? && Brought(x.event).Some? && Brought(x.event).value.header.ptype == Fin ==>
      Brought(x.event).value.header.tsDiff != 0
  }

  lemma EventIsTold(c: Conn, e: Event)
    requires Local(c) && Prompted(c) && (e.Arrive? ==> e.sent in c.out)
    requires e.Interfere? ==> e.reset.header.ptype == Reset
    ensures Told(e, {0, 1_000_000})
    ensures !(Brought(e).Some? && Brought(e).value.header.ptype == Fin && Brought(e).value.header.tsDiff == 0) ==>
              Told(e, {1_000_000})
  {
    if e.Arrive? && WellFormed(e.sent) && FromWire(e.sent).Ok? {
      PromptedIsTold(c, e.sent);
    }
  }

  lemma LateIsTold(run: Run, n: nat, k: nat)
    requires run.Valid() && k < n < |run.states| && IsLate(run, Initiator, n) && run.turns[k].AtAcceptor?
    ensures Told(run.turns[k].event, {0, 1_000_000})
    ensures NoBareFin(run, n) ==> Told(run.turns[k].event, {1_000_000})
  {
    InitiatorIsPrompted(run, k);
    RunSteps(run, k);
    EventIsTold(run.states[k].a, run.turns[k].event);
  }

  /**
   * If the initiator is always late, then whatever delays the network has, every sample of the acceptor's controller is
   * one second, but for those that a FIN without a lag brought, which are zero. Without such a FIN the acceptor adjusts
   * its window as on a path without queues.
   */
  lemma LateRunsHideDelays(run: Run, n: nat)
    requires run.Valid() && Reaches(run, n) && IsLate(run, Initiator, n)
    ensures Among(Samples(run.states[n].b), {0, 1_000_000})
    ensures NoBareFin(run, n) ==> Among(Samples(run.states[n].b), {1_000_000})
  {
    forall k | 0 <= k < n && run.turns[k].AtAcceptor?
      ensures Told(run.turns[k].event, {0, 1_000_000})
      ensures NoBareFin(run, n) ==> Told(run.turns[k].event, {1_000_000})
    {
      LateIsTold(run, n, k);
    }
    SamplesAreReports(run, Acceptor, n, {0, 1_000_000});
    if NoBareFin(run, n) {
      SamplesAreReports(run, Acceptor, n, {1_000_000});
    }
  }

  /** So it takes every ack that reports one second for one that met no queue. */
  lemma LateRunsSeeNoQueue(run: Run, n: nat, q: u16, ack: Congestion.Ack)
    requires run.Valid() && Reaches(run, n) && IsLate(run, Initiator, n) && NoBareFin(run, n)
    requires run.states[n].b.bufs.Some? && q in run.states[n].b.bufs.value.sent.ctrl.tx
    requires ack.delay == 1_000_000_000
    requires ack.wall <= ack.receivedAt + run.states[n].b.bufs.value.sent.ctrl.delayWindow
    ensures var c := run.states[n].b.bufs.value.sent.ctrl;
            c.RawAdjustment(q, ack) ==
            Congestion.Adjustment(c.target, 0, 0, c.window, c.tx[q].size, c.maxInc, c.gain, c.undefinedInt)
  {
    LateRunsHideDelays(run, n);
    Congestion.EqualDelaysAreNone(run.states[n].b.bufs.value.sent.ctrl, q, ack);
  }
}
