/** What the protocol promises its users, in every state of every run. */
module Theorems {
  import opened Words
  import opened Collections
  import opened Packets
  import opened ReceiveBuffers
  import opened Congestion
  import opened Sending
  import opened Connections
  import opened Invariants
  import opened Arrivals
  import opened Runs
  import opened Protocol
  import opened Answers
  import opened Drafts
  import opened Endings

  // ---------------------------------------------------------------- a pair of endpoints

  /** The sequenced bytes are the first of those drafted. */
  lemma SequencedIsDrafted(c: Conn, n: nat)
    requires Local(c) && n <= |SentOf(c.bufs)|
    ensures Stream(SentOf(c.bufs)[..n]) <= Stream(SentOf(c.bufs)) <= BytesDrafted(c)
  {
    var ps := SentOf(c.bufs);
    JoinPrefix(Payloads(ps), n);
    assert Payloads(ps)[..n] == Payloads(ps[..n]);
    StreamIsPrefix(c.bufs, c.pendingWrites, c.drafts);
  }

  lemma StreamIsPrefix(b: Option<Buffers>, writes: seq<QueuedWrite>, drafts: seq<QueuedWrite>)
    requires Conserved(b, writes, drafts)
    ensures Stream(SentOf(b)) <= Join(WriteData(drafts))
  {
    assert Stream(SentOf(b)) <= Outstanding(b);
  }

  /** The reader never sees anything but a prefix of what the peer drafted. */
  lemma ReaderSeesPrefix(c: Conn, d: Conn)
    requires Local(c) && Linked(c, d) && Assembled(d, c)
    ensures BytesRead(d.readOut) <= BytesDrafted(c)
  {
    if d.bufs.Some? {
      ReadIsStream(c.endpoint, SentOf(c.bufs), d.bufs, d.readOut);
      SequencedIsDrafted(c, d.bufs.value.recv.consumed);
    }
  }

  /** After its FIN an endpoint has sequenced every byte drafted. */
  lemma FinMeansAllSequenced(c: Conn)
    requires Local(c) && c.LocalFin().Some?
    ensures c.bufs.Some? && BytesDrafted(c) == Stream(SentOf(c.bufs))
  {
    assert c.bufs.value.send.Contents() == [];
    assert WriteData(c.pendingWrites) == [];
  }

  /** When everything has been consumed, everything drafted is read or readable. */
  lemma ConsumedIsAll(c: Conn, d: Conn)
    requires Local(c) && Linked(c, d) && Assembled(d, c) && c.LocalFin().Some? && d.bufs.Some?
    requires d.bufs.value.recv.consumed >= |SentOf(c.bufs)|
    ensures BytesRead(d.readOut) + d.bufs.value.recv.buf == BytesDrafted(c)
  {
    FinMeansAllSequenced(c);
    ReadIsStream(c.endpoint, SentOf(c.bufs), d.bufs, d.readOut);
    WholeStream(SentOf(c.bufs), d.bufs.value.recv.consumed);
  }

  lemma WholeStream(ps: seq<SentPacket>, n: nat)
    requires n == |ps|
    ensures Stream(ps[..n]) == Stream(ps)
  {
    assert ps[..n] == ps;
  }

  /** The end of the stream is reported only after every byte the peer drafted has been read. */
  lemma EofMeansComplete(c: Conn, d: Conn)
    requires Local(c) && Linked(c, d) && Assembled(d, c) && Eof in d.readOut
    ensures BytesRead(d.readOut) == BytesDrafted(c) && c.LocalFin().Some? && c.LocalFin() == d.RemoteFin()
  {
    FinIsLast(c, d.RemoteFin().value);
    ConsumedIsAll(c, d);
  }

  /** A run of received numbers has been consumed. */
  lemma {:induction false} ReceivedRunIsConsumed(r: RecvState, n: u16)
    requires r.Valid() && forall o: u16 :: 1 <= o <= n ==> r.WasWritten(Add(r.init, o))
    ensures n <= r.consumed
  {
    if r.consumed < n {
      var q := Add(r.init, r.consumed + 1);
      assert r.WasWritten(q);
      WrittenIsWithinReach(r, q);
    }
  }

  /** An endpoint that takes its FIN for acked is right: the peer has assembled its whole stream. */
  lemma FinAckedMeansReceived(c: Conn, d: Conn)
    requires Pair(c, d) && Backed(c, d) && Assembled(d, c) && c.LocalFin().Some? && c.bufs.Some?
    requires c.bufs.value.sent.LastAckNum() == c.LocalFin()
    ensures d.bufs.Some? && BytesRead(d.readOut) + d.bufs.value.recv.buf == BytesDrafted(c)
  {
    var ps := SentOf(c.bufs);
    LastAckedIsLast(c);
    assert ps[0].Acked();
    var r := d.bufs.value.recv;
    forall o: u16 | 1 <= o <= |ps| ensures r.WasWritten(Add(r.init, o)) {
      assert ps[o - 1].Acked();
      assert Number(SendInit(c.endpoint), o - 1) == Add(r.init, o);
    }
    ReceivedRunIsConsumed(r, |ps|);
    ConsumedIsAll(c, d);
  }

  lemma LastAckedIsLast(c: Conn)
    requires Local(c) && c.LocalFin().Some? && c.bufs.Some? && c.bufs.value.sent.LastAckNum() == c.LocalFin()
    ensures Gap(SentOf(c.bufs)) == |SentOf(c.bufs)| > 0
  {
    var ps := SentOf(c.bufs);
    var n := |ps|;
    assert Placed(ps, n - 1, c.LocalFin());
    IndexOfNumber(c.bufs.value.sent.init, n - 1);
    IndexOfNumber(c.bufs.value.sent.init, Gap(ps) - 1);
  }

  // ---------------------------------------------------------------- what a call delivers and resends

  /** Reading hands over every readable byte, in order, whatever the chunk size. */
  lemma {:induction false} DeliverReadsAll(c: Conn)
    requires c.bufs.Some? && c.cfg.maxPacketSize > 0
    ensures BytesRead(c.Deliver().readOut) == BytesRead(c.readOut) + c.bufs.value.recv.buf
    decreases |c.bufs.value.recv.buf|
  {
    var buf := c.bufs.value.recv.buf;
    var n := Min(c.cfg.maxPacketSize, |buf|);
    if n == 0 {
      assert BytesRead(c.readOut) + buf == BytesRead(c.readOut);
    } else {
      DeliverReadsAll(c.HandOver());
      BytesReadSnoc(c.readOut, Chunk(buf[..n]));
      assert (BytesRead(c.readOut) + buf[..n]) + buf[n..] == BytesRead(c.readOut) + buf;
    }
  }

  /** The packet at position i of the output repeats the one numbered q. */
  predicate RepeatsAt(s: SentState, out: seq<Packet>, i: nat, q: u16) {
    i < |out| && out[i].header.seqNum == q && Carries(s, out[i])
  }

  /** Behind the old output, the new one has one packet for each number, with the bytes it carries. */
  ghost predicate AllResent(s: SentState, out: seq<Packet>, out1: seq<Packet>, lost: set<u16>) {
    && out <= out1 && |out1| == |out| + |lost|
    && forall q :: q in lost ==> exists i :: |out| <= i && RepeatsAt(s, out1, i, q)
  }

  lemma OneMoreResent(s: SentState, t: SentState, out: seq<Packet>, p: Packet, out1: seq<Packet>, lost: set<u16>)
    requires p.header.seqNum in lost && Carries(s, p) && t.init == s.init && SameContents(s.packets, t.packets)
    requires AllResent(t, out + [p], out1, lost - {p.header.seqNum})
    ensures AllResent(s, out, out1, lost)
  {
    assert out1[|out|] == p;
    assert RepeatsAt(s, out1, |out|, p.header.seqNum);
    forall q | q in lost && q != p.header.seqNum ensures exists i :: |out| <= i && RepeatsAt(s, out1, i, q) {
      assert q in lost - {p.header.seqNum};
      var i: nat :| |out + [p]| <= i && RepeatsAt(t, out1, i, q);
      assert RepeatsAt(s, out1, i, q);
    }
  }

  /** Every lost packet is sent again, exactly once, with the bytes it first carried. */
  lemma {:induction false} LostAreResent(c: Conn, lost: set<u16>, clock: Clock)
    requires c.Valid() && c.Resendable(lost)
    ensures AllResent(c.bufs.value.sent, c.out, c.ResendAll(lost, clock).out, lost)
    decreases |lost|
  {
    if lost != {} {
      var q := Smallest(lost);
      ResendNext(c, lost, q, clock);
      ResendChangesTimesOnly(c, q, clock);
      var p := c.Repeat(q, clock);
      var c1 := c.Transmit(p, clock);
      LostAreResent(c1, lost - {q}, clock);
      OneMoreResent(c.bufs.value.sent, c1.bufs.value.sent, c.out, p, c.ResendAll(lost, clock).out, lost);
    }
  }

  // ---------------------------------------------------------------- bytes in flight

  /** The bytes of the unacked packets. */
  function UnackedBytes(ps: seq<SentPacket>): nat {
    if ps == [] then 0 else UnackedBytes(ps[..|ps| - 1]) + if ps[|ps| - 1].Acked() then 0 else |ps[|ps| - 1].data|
  }

  lemma {:induction false} FlightIsUnacked(init: u16, ps: seq<SentPacket>, tx: map<u16, Record>)
    requires |ps| <= MAX_PACKETS && (forall q :: q in tx <==> Index(init, q) < |ps|)
    requires forall q :: q in tx ==> Matches(tx[q], ps[Index(init, q)])
    ensures MapSum(tx, InFlight) == UnackedBytes(ps)
    decreases |ps|
  {
    var n := |ps|;
    if n == 0 {
      assert tx == map[] by {
        if tx != map[] {
          var q := Pick(tx.Keys);
          assert false;
        }
      }
    } else {
      var q := Number(init, n - 1);
      IndexOfNumber(init, n - 1);
      MapSumRemove(tx, InFlight, q);
      forall x | x in tx - {q} ensures Index(init, x) < n - 1 {
        NumberOfIndex(init, x);
      }
      FlightIsUnacked(init, ps[..n - 1], tx - {q});
    }
  }

  /** The window of every endpoint counts exactly the bytes of its unacked packets. */
  lemma WindowCountsUnacked(c: Conn)
    requires Local(c) && c.bufs.Some?
    ensures c.bufs.value.sent.ctrl.window == UnackedBytes(SentOf(c.bufs))
  {
    var s := c.bufs.value.sent;
    FlightIsUnacked(s.init, s.packets, s.ctrl.tx);
  }

  // ---------------------------------------------------------------- every run

  predicate Reaches(run: Run, i: nat) {
    i < |run.states| && run.states[i].Joined?
  }

  lemma RunsPair(run: Run, i: nat, role: Role)
    requires run.Valid() && Reaches(run, i)
    ensures Pair(At(run.states[i], role), Peer(run.states[i], role))
  {
    RunKeeps(run, i);
  }

  lemma RunReadsRight(run: Run, i: nat, role: Role)
    requires run.Valid() && Reaches(run, i) && run.StreamSound(role, i)
    ensures Assembled(At(run.states[i], role), Peer(run.states[i], role))
  {
    RunReadsRightIff(run, role, i);
    assert ReadsRight(run.states[i], role);
  }

  lemma RunAcksRight(run: Run, i: nat, role: Role)
    requires run.Valid() && Reaches(run, i) && run.AcksSound(role, i)
    ensures Backed(At(run.states[i], role), Peer(run.states[i], role))
  {
    RunAcksRightIff(run, role, i);
    assert AcksRight(run.states[i], role);
  }

  lemma RunKeepsDrafts(run: Run, i: nat, role: Role)
    requires run.Valid() && Reaches(run, i) && IsSteady(run, role, i)
    ensures At(run.states[i], role).drafts == At(run.states[i], role).accepted
  {
    RunIsKeptIff(run, role, i);
    assert KeptAt(run.states[i], role);
  }

  /**
   * End-to-end safety. Whatever the network loses, repeats, reorders or delays, whenever timers fire, whatever writers
   * do to their memory, and whatever happens to the other direction: as long as what arrives at an endpoint does its
   * stream no harm, what it has read is a prefix of what its peer was given, each byte as it was when it was cut into a
   * packet.
   */
  lemma EndToEndAsCut(run: Run, i: nat, role: Role)
    requires run.Valid() && Reaches(run, i) && run.StreamSound(role, i)
    ensures var s := run.states[i]; BytesRead(At(s, role).readOut) <= BytesDrafted(Peer(s, role))
  {
    RunsPair(run, i, role);
    RunReadsRight(run, i, role);
    ReaderSeesPrefix(Peer(run.states[i], role), At(run.states[i], role));
  }

  /** And if the peer's writers leave alone what they have handed over, it is a prefix of what the peer has accepted. */
  lemma EndToEnd(run: Run, i: nat, role: Role)
    requires run.Valid() && Reaches(run, i) && run.StreamSound(role, i) && IsSteady(run, Opposite(role), i)
    ensures var s := run.states[i]; BytesRead(At(s, role).readOut) <= BytesAccepted(Peer(s, role))
  {
    EndToEndAsCut(run, i, role);
    RunKeepsDrafts(run, i, Opposite(role));
  }

  /** Before there is a peer, nothing is read. */
  lemma NothingFromNoOne(run: Run, i: nat)
    requires run.Valid() && i < |run.states| && run.states[i].Dialing?
    ensures BytesRead(run.states[i].a.readOut) == [] && Eof !in run.states[i].a.readOut
  {
    RunKeeps(run, i);
  }

  lemma RunsProgress(run: Run, i: nat, j: nat, role: Role)
    requires run.Valid() && Reaches(run, i) && i <= j < |run.states|
    ensures Reaches(run, j) && Progress(At(run.states[i], role), At(run.states[j], role))
    ensures Progress(Peer(run.states[i], role), Peer(run.states[j], role))
  {
    RunGoesForward(run, i, j);
  }

  /**
   * Closed is absorbing, a connection never goes back to connecting, FINs are write-once, and acks are never taken
   * back.
   */
  lemma NothingGoesBack(run: Run, i: nat, j: nat, role: Role)
    requires run.Valid() && Reaches(run, i) && i <= j < |run.states|
    ensures Reaches(run, j)
    ensures var c, c1 := At(run.states[i], role), At(run.states[j], role);
            && (c.stateType == Closed ==> c1.stateType == Closed)
            && (c.stateType == Connected ==> c1.stateType != Connecting)
            && (c1.stateType == Connected ==> c1.bufs.Some?)
            && WriteOnce(c.LocalFin(), c1.LocalFin()) && WriteOnce(c.RemoteFin(), c1.RemoteFin())
            && SentGrows(SentOf(c.bufs), SentOf(c1.bufs))
            && c.readOut <= c1.readOut && c.results <= c1.results && c.accepted <= c1.accepted
  {
    RunsProgress(run, i, j, role);
    RunsPair(run, j, role);
  }

  /** A FIN is final: it stays the last packet, nothing waits behind it, and no more bytes are accepted. */
  lemma FinIsFinal(run: Run, i: nat, j: nat, role: Role)
    requires run.Valid() && Reaches(run, i) && i <= j < |run.states| && At(run.states[i], role).LocalFin().Some?
    ensures Reaches(run, j)
    ensures var c, c1 := At(run.states[i], role), At(run.states[j], role);
            && c1.LocalFin() == c.LocalFin() && |SentOf(c1.bufs)| == |SentOf(c.bufs)| > 0
            && SentOf(c1.bufs)[|SentOf(c1.bufs)| - 1].ptype == Fin && Idle(c1)
            && Stream(SentOf(c1.bufs)) == Stream(SentOf(c.bufs)) && BytesAccepted(c1) == BytesAccepted(c)
  {
    var c := At(run.states[i], role);
    RunsPair(run, i, role);
    RunsProgress(run, i, j, role);
    RunsPair(run, j, role);
    var c1 := At(run.states[j], role);
    SameStream(SentOf(c.bufs), SentOf(c1.bufs));
  }

  lemma SameStream(a: seq<SentPacket>, b: seq<SentPacket>)
    requires SentGrows(a, b) && |a| == |b|
    ensures Stream(a) == Stream(b)
  {
    assert Payloads(a) == Payloads(b);
  }

  /** When the end was reported, no body that arrives is taken. */
  lemma EofTakesNothing(c: Conn, p: Packet, d: Conn)
    requires Arrives(c, p, d) && Eof in c.readOut
    ensures Untaken(c, FromWire(p).value)
  {
    assert Genuine(d.endpoint, d.bufs, p);
    WireEchoes(p);
    FinIsLast(d, c.RemoteFin().value);
    if p.header.ptype == Data {
      var r := c.bufs.value.recv;
      assert r.consumed == |SentOf(d.bufs)|;
      WrittenIsWithinReach(r, p.header.seqNum);
    }
  }

  lemma EofTurnIsSound(s: System, x: Turn, role: Role)
    requires Good(s) && CanStep(s, x) && s.Joined? && Eof in At(s, role).readOut
    ensures StreamSoundTurn(s, x, role)
  {
    var e := EventAt(x, role);
    if e.Some? && e.value.Arrive? && FromWire(e.value.sent).Ok? {
      TurnOf(s, x, role);
      EofTakesNothing(At(s, role), e.value.sent, Peer(s, role));
    }
  }

  lemma EofStaysSound(run: Run, i: nat, j: nat, role: Role)
    requires run.Valid() && Reaches(run, i) && i <= j < |run.turns| && Eof in At(run.states[i], role).readOut
    ensures StreamSoundTurn(run.states[j], run.turns[j], role)
  {
    RunsProgress(run, i, j, role);
    RunSteps(run, j);
    EofTurnIsSound(run.states[j], run.turns[j], role);
  }

  /** After the end was reported, nothing that arrives does harm. */
  lemma EofSeals(run: Run, i: nat, j: nat, role: Role)
    requires run.Valid() && Reaches(run, i) && i <= j < |run.states| && run.StreamSound(role, i)
    requires Eof in At(run.states[i], role).readOut
    ensures run.StreamSound(role, j)
  {
    var fits := (s: System, x: Turn) => StreamSoundTurn(s, x, role);
    forall k | i <= k < j ensures fits(run.states[k], run.turns[k]) {
      EofStaysSound(run, i, k, role);
    }
    AllFitOn(run.states, run.turns, fits, i, j);
  }

  /**
   * The end of the stream is complete and final: once it was reported, what was read is every byte the peer ever
   * accepted, and no later state adds to either, whatever arrives then and whatever writers do then.
   */
  lemma EofIsComplete(run: Run, i: nat, j: nat, role: Role)
    requires run.Valid() && Reaches(run, i) && i <= j < |run.states|
    requires run.StreamSound(role, i) && IsSteady(run, Opposite(role), i) && Eof in At(run.states[i], role).readOut
    ensures Reaches(run, j)
    ensures var s, t := run.states[i], run.states[j];
            && BytesRead(At(s, role).readOut) == BytesAccepted(Peer(s, role))
            && BytesRead(At(t, role).readOut) == BytesAccepted(Peer(t, role)) == BytesAccepted(Peer(s, role))
  {
    RunsProgress(run, i, j, role);
    EofSeals(run, i, j, role);
    EofIsDrafted(run, i, role);
    EofIsDrafted(run, j, role);
    FinSteadies(run, Opposite(role), i, j);
    RunKeepsDrafts(run, i, Opposite(role));
    RunKeepsDrafts(run, j, Opposite(role));
  }

  lemma EofIsDrafted(run: Run, i: nat, role: Role)
    requires run.Valid() && Reaches(run, i) && run.StreamSound(role, i) && Eof in At(run.states[i], role).readOut
    ensures BytesRead(At(run.states[i], role).readOut) == BytesDrafted(Peer(run.states[i], role))
    ensures Peer(run.states[i], role).LocalFin().Some?
  {
    RunsPair(run, i, role);
    RunReadsRight(run, i, role);
    EofMeansComplete(Peer(run.states[i], role), At(run.states[i], role));
  }

  /** No phantom acks: what an endpoint takes for acked, its peer has received. */
  lemma NoPhantomAcks(run: Run, i: nat, role: Role, k: nat)
    requires run.Valid() && Reaches(run, i) && run.AcksSound(role, i)
    requires var c := At(run.states[i], role); k < |SentOf(c.bufs)| && SentOf(c.bufs)[k].Acked()
    ensures var c, d := At(run.states[i], role), Peer(run.states[i], role);
            k < 0xFFFF && d.bufs.Some? && d.bufs.value.recv.WasWritten(Number(c.bufs.value.sent.init, k))
  {
    RunsPair(run, i, role);
    RunAcksRight(run, i, role);
  }

  /** An endpoint that closes because its FIN is acked leaves a peer that has all its bytes. */
  lemma AckedFinMeansDelivered(run: Run, i: nat, role: Role)
    requires run.Valid() && Reaches(run, i) && run.AcksSound(role, i) && run.StreamSound(Opposite(role), i)
    requires IsSteady(run, role, i)
    requires var c := At(run.states[i], role);
             c.LocalFin().Some? && c.bufs.Some? && c.bufs.value.sent.LastAckNum() == c.LocalFin()
    ensures var c, d := At(run.states[i], role), Peer(run.states[i], role);
            d.bufs.Some? && BytesRead(d.readOut) + d.bufs.value.recv.buf == BytesAccepted(c)
  {
    RunsPair(run, i, role);
    RunAcksRight(run, i, role);
    RunReadsRight(run, i, Opposite(role));
    FinAckedMeansReceived(At(run.states[i], role), Peer(run.states[i], role));
    RunKeepsDrafts(run, i, role);
  }

  /** Two correct endpoints never reject each other's packets and never send a RESET. */
  lemma NoRejections(run: Run, i: nat)
    requires run.Valid() && i < |run.states|
    ensures var c := run.states[i].a; Harmless(c.err) && forall p :: p in c.out ==> p.header.ptype != Reset
    ensures run.states[i].Joined? ==>
              var c := run.states[i].b; Harmless(c.err) && forall p :: p in c.out ==> p.header.ptype != Reset
  {
    RunKeeps(run, i);
    NoResets(run.states[i].a);
    if run.states[i].Joined? {
      NoResets(run.states[i].b);
    }
  }

  lemma NoResets(c: Conn)
    requires Local(c)
    ensures forall p :: p in c.out ==> p.header.ptype != Reset
  {
    forall p | p in c.out ensures p.header.ptype != Reset {
      assert Genuine(c.endpoint, c.bufs, p);
    }
  }

  /**
   * A connection has an error only when it has ended, and then a timeout or a reset; and a reset only if it had not
   * sent its FIN, since a reset after that passes for a successful close.
   */
  lemma EndsWithReason(run: Run, i: nat, c: Conn)
    requires run.Valid() && i < |run.states|
    requires c == run.states[i].a || (run.states[i].Joined? && c == run.states[i].b)
    ensures c.stateType != Closed ==> c.err.None?
    ensures c.err.None? || c.err == Some(TimeOut) || (c.err == Some(PeerReset) && c.LocalFin().None?)
  {
    RunIsTidy(run, i);
  }

  /**
   * The reader is never told an error. When a connection ends without one, the reader has been told the end of the
   * stream, or the endpoint had sent its own FIN.
   */
  lemma ReaderIsToldNoError(run: Run, i: nat, c: Conn)
    requires run.Valid() && i < |run.states|
    requires c == run.states[i].a || (run.states[i].Joined? && c == run.states[i].b)
    ensures forall e :: e in c.readOut ==> !e.ReadError?
    ensures c.stateType == Closed && c.err.None? && c.bufs.Some? ==> Eof in c.readOut || c.LocalFin().Some?
  {
    RunIsTidy(run, i);
  }

  /**
   * Writes complete first in, first out, with their own lengths; those not complete are still queued. What is
   * sequenced, buffered and queued adds up to all that was accepted, as the writers' memory has it, and has kept it
   * if no writer has changed it.
   */
  lemma WritesCompleteInOrder(run: Run, i: nat, role: Role)
    requires run.Valid() && Reaches(run, i)
    ensures var c := At(run.states[i], role); var n := |c.accepted| - |c.pendingWrites|;
            && 0 <= n && Completions(c.results) == Whole(c.accepted[..n]) && SameShape(c.accepted, c.drafts)
            && Accounted(c.pendingWrites, c.results, c.drafts) && Conserved(c.bufs, c.pendingWrites, c.drafts)
            && (IsSteady(run, role, i) ==> c.drafts == c.accepted)
  {
    RunsPair(run, i, role);
    SameWhole(At(run.states[i], role));
    if IsSteady(run, role, i) {
      RunKeepsDrafts(run, i, role);
    }
  }

  lemma SameWhole(c: Conn)
    requires SameShape(c.accepted, c.drafts) && |c.pendingWrites| <= |c.drafts|
    ensures var n := |c.drafts| - |c.pendingWrites|; Whole(c.accepted[..n]) == Whole(c.drafts[..n])
  {
  }

  /**
   * Every accepted write is answered at most once while the event loop goes on, and exactly once when it has ended:
   * the complete ones with their lengths, in the order they were accepted, and then the others with the error.
   */
  lemma EveryWriteIsAnswered(run: Run, i: nat, c: Conn)
    requires run.Valid() && i < |run.states|
    requires (c == run.states[i].a || (run.states[i].Joined? && c == run.states[i].b))
    ensures var n := |c.accepted| - |c.pendingWrites|;
            && 0 <= n <= |c.accepted|
            && Verdicts(c.results) ==
               if c.stateType == Closed then Answered(c.accepted, n, c.err) else Answered(c.accepted[..n], n, None)
  {
    RunKeeps(run, i);
    RunSettles(run, i);
    SettledIsAnswered(c);
  }

  /** The bytes in flight are those of the unacked packets, and the lost index holds exactly the lost ones. */
  lemma SenderIsConsistent(run: Run, i: nat, role: Role)
    requires run.Valid() && Reaches(run, i) && At(run.states[i], role).bufs.Some?
    ensures var s := At(run.states[i], role).bufs.value.sent;
            && s.ctrl.window == UnackedBytes(s.packets) && s.ctrl.minWindow <= s.ctrl.maxWindow
            && forall q: u16 :: q in s.lost <==> Index(s.init, q) < |s.packets| && LostAt(s.packets, Index(s.init, q))
  {
    RunsPair(run, i, role);
    WindowCountsUnacked(At(run.states[i], role));
  }
}
