/** Which runs leave the bytes that writers have handed over as they were. */
module Drafts {
  import opened Words
  import opened Collections
  import opened Packets
  import opened Sending
  import opened Connections
  import opened Frames
  import opened Invariants
  import opened Writers
  import opened Runs
  import opened Protocol

  /** What was cut into packets, and what still waits, is what the writers handed over. */
  predicate Kept(c: Conn) {
    c.drafts == c.accepted
  }

  /** If a writer touches its memory, it leaves it as it was. */
  predicate Steady(c: Conn, e: Event) {
    e.Scribble? ==> e.memory == c.drafts
  }

  lemma TakeInKeepsWrites(c: Conn, p: Packet, clock: Clock)
    requires c.Valid() && CanTakeIn(c, p, clock)
    ensures SameWrites(c, TakeIn(c, p, clock))
  {
    if FromWire(p).Ok? {
      OnPacketAnswersNothing(c, FromWire(p).value, clock);
    }
  }

  lemma SubmitIsKept(c: Conn, id: nat, data: seq<u8>, clock: Clock)
    requires c.Valid() && c.HasNumbers() && Kept(c)
    ensures Kept(c.OnWrite(id, data, clock))
  {
    ProcessWritesKeepsStatus(c.Enqueue(id, data), clock);
  }

  lemma ApplyKeptIff(c: Conn, e: Event, clock: Clock, wire: seq<Packet>)
    requires c.Valid() && Possible(c, e, clock, wire) && Kept(c)
    ensures Kept(Apply(c, e, clock, wire)) <==> Steady(c, e)
  {
    match e
    case Submit(id, data) => SubmitIsKept(c, id, data, clock);
    case Fetch => ProcessReadsIsSilent(c);
    case Flush => ProcessWritesKeepsStatus(c, clock);
    case Expire(p) =>
    case Arrive(p) => TakeInKeepsWrites(c, p, clock);
    case Interfere(p) => OnPacketAnswersNothing(c, p, clock);
    case Ask =>
    case Silence =>
    case Scribble(_, _, _) =>
  }

  lemma AfterEventKeepsWrites(c: Conn, shutdown: bool, clock: Clock)
    requires c.Valid() && (shutdown ==> c.CanFin())
    ensures SameWrites(c, c.AfterEvent(shutdown, clock))
  {
    var c1 := if shutdown && c.stateType != Closed then c.Shutdown(clock) else c;
    if c1.stateType == Closed {
      ProcessWritesKeepsStatus(c1, clock);
    }
  }

  lemma ActKeptIff(c: Conn, e: Event, shutdown: bool, clock: Clock, wire: seq<Packet>)
    requires CanAct(c, e, shutdown, clock, wire) && Kept(c)
    ensures Kept(Act(c, e, shutdown, clock, wire)) <==> Steady(c, e)
  {
    ApplyKeptIff(c, e, clock, wire);
    AfterEventKeepsWrites(Apply(c, e, clock, wire), shutdown, clock);
  }

  // ---------------------------------------------------------------- runs

  predicate KeptAt(s: System, role: Role) {
    Has(s, role) ==> Kept(At(s, role))
  }

  predicate SteadyTurn(s: System, x: Turn, role: Role) {
    Has(s, role) && EventAt(x, role).Some? ==> Steady(At(s, role), EventAt(x, role).value)
  }

  lemma StepKeptIff(s: System, x: Turn, role: Role)
    requires KeptAt(s, role) && CanStep(s, x)
    ensures KeptAt(Step(s, x), role) <==> SteadyTurn(s, x, role)
  {
    match x
    case AtInitiator(e, shutdown, clock) =>
      if role == Initiator { ActKeptIff(s.a, e, shutdown, clock, if s.Joined? then s.b.out else []); }
    case AtAcceptor(e, shutdown, clock) =>
      if role == Acceptor { ActKeptIff(s.b, e, shutdown, clock, s.a.out); }
    case Greet(_, _, _, _, _, _) =>
  }

  /** No writer of the endpoint of the role changes, in the first n turns, what it has handed over. */
  ghost predicate IsSteady(run: Run, role: Role, n: nat) {
    AllFit(run.states, run.turns, (s, x) => SteadyTurn(s, x, role), n)
  }

  ghost predicate KeptUpTo(run: Run, role: Role, n: nat) {
    AllHold(run.states, s => KeptAt(s, role), n)
  }

  /**
   * What an endpoint sends is what was handed over to it, up to a state, if and only if none of its writers has changed
   * it on the way.
   */
  lemma RunIsKeptIff(run: Run, role: Role, n: nat)
    requires run.Valid() && n < |run.states|
    ensures KeptUpTo(run, role, n) <==> IsSteady(run, role, n)
  {
    StartIsKept(run.states[0], role);
    var holds, fits := (s: System) => KeptAt(s, role), (s: System, x: Turn) => SteadyTurn(s, x, role);
    forall i | 0 <= i < n && holds(run.states[i])
      ensures holds(run.states[i + 1]) <==> fits(run.states[i], run.turns[i])
    {
      assert Moves(run.states[i], run.turns[i], run.states[i + 1]);
      StepKeptIff(run.states[i], run.turns[i], role);
    }
    HoldsWhileFits(run.states, run.turns, holds, fits, n);
  }

  lemma StartIsKept(s: System, role: Role)
    requires Starts(s)
    ensures KeptAt(s, role)
  {
  }

  // ---------------------------------------------------------------- after the FIN

  /** Once the FIN is out, nothing that was handed over is left to change. */
  lemma FinLeavesNothing(c: Conn, pending: seq<seq<u8>>, writes: seq<QueuedWrite>, memory: seq<QueuedWrite>)
    requires Local(c) && c.LocalFin().Some? && CanRewrite(c, pending, writes, memory)
    ensures memory == c.drafts
  {
    RewriteIsIdle(c, pending, writes, memory);
    assert WriteData(c.pendingWrites) == WriteData(writes) == [];
    assert c.bufs.value.send.Contents() == c.Rewritten(pending, writes, memory).bufs.value.send.Contents() == [];
    JoinIsInjective(WriteData(c.drafts), WriteData(memory));
    forall i | 0 <= i < |memory| ensures memory[i] == c.drafts[i] {
      assert memory[i].data == WriteData(memory)[i] == WriteData(c.drafts)[i] == c.drafts[i].data;
    }
  }

  lemma FinTurnIsSteady(s: System, x: Turn, role: Role)
    requires Good(s) && s.Joined? && At(s, role).LocalFin().Some? && CanStep(s, x)
    ensures SteadyTurn(s, x, role)
  {
    var e := EventAt(x, role);
    if e.Some? && e.value.Scribble? {
      TurnOf(s, x, role);
      FinLeavesNothing(At(s, role), e.value.pending, e.value.writes, e.value.memory);
    }
  }

  lemma FinStaysSteady(run: Run, role: Role, i: nat, j: nat)
    requires run.Valid() && i <= j < |run.turns|
    requires run.states[i].Joined? && At(run.states[i], role).LocalFin().Some?
    ensures SteadyTurn(run.states[j], run.turns[j], role)
  {
    RunGoesForward(run, i, j);
    RunSteps(run, j);
    FinTurnIsSteady(run.states[j], run.turns[j], role);
  }

  /** So writers that have left their bytes alone until then have done so for good. */
  lemma FinSteadies(run: Run, role: Role, i: nat, j: nat)
    requires run.Valid() && i <= j < |run.states| && IsSteady(run, role, i)
    requires run.states[i].Joined? && At(run.states[i], role).LocalFin().Some?
    ensures IsSteady(run, role, j)
  {
    var fits := (s: System, x: Turn) => SteadyTurn(s, x, role);
    forall k | i <= k < j ensures fits(run.states[k], run.turns[k]) {
      FinStaysSteady(run, role, i, k);
    }
    AllFitOn(run.states, run.turns, fits, i, j);
  }
}
