/** Writing, shutting down and timing out keep the invariant of the pair. */
module Writers {
  import opened Words
  import opened Collections
  import opened Packets
  import opened SendBuffers
  import opened Sending
  import opened Connections
  import opened Invariants
  import opened Handlers

  // ---------------------------------------------------------------- queueing

  lemma EnqueueKeeps(c: Conn, id: nat, data: seq<u8>, d: Conn)
    requires Local(c) && Linked(c, d)
    ensures Keeps(c, c.Enqueue(id, data), d)
  {
    var w := QueuedWrite(id, data, 0);
    match c.stateType
    case Connecting => AcceptLocal(c, w);
    case Connected =>
      if c.closing.None? || (c.LocalFin().None? && c.RemoteFin().Some?) {
        AcceptLocal(c, w);
      } else {
        ReportedLocal(c, [Refused(id)]);
      }
    case Closed => ReportedLocal(c, [Failed(id, c.err)]);
  }

  lemma AcceptLocal(c: Conn, w: QueuedWrite)
    requires Local(c) && c.LocalFin().None? && w.written == 0
    ensures Local(c.Queued(w)) && Progress(c, c.Queued(w))
  {
    AcceptConserves(c.bufs, c.pendingWrites, c.drafts, w);
    AcceptAccounts(c.pendingWrites, c.results, c.drafts, w);
  }

  lemma WriteDataSnoc(ws: seq<QueuedWrite>, w: QueuedWrite)
    ensures Join(WriteData(ws + [w])) == Join(WriteData(ws)) + w.data
  {
    JoinSnoc(WriteData(ws), w.data);
    assert WriteData(ws + [w]) == WriteData(ws) + [w.data];
  }

  lemma AcceptConserves(b: Option<Buffers>, writes: seq<QueuedWrite>, accepted: seq<QueuedWrite>, w: QueuedWrite)
    requires Conserved(b, writes, accepted)
    ensures Conserved(b, writes + [w], accepted + [w])
  {
    WriteDataSnoc(writes, w);
    WriteDataSnoc(accepted, w);
    assert Outstanding(b) + (Join(WriteData(writes)) + w.data) == (Outstanding(b) + Join(WriteData(writes))) + w.data;
  }

  lemma AcceptAccounts(writes: seq<QueuedWrite>, results: seq<WriteResult>, accepted: seq<QueuedWrite>, w: QueuedWrite)
    requires Accounted(writes, results, accepted) && w.written == 0
    ensures Accounted(writes + [w], results, accepted + [w])
  {
    var n := |accepted| - |writes|;
    assert (accepted + [w])[..n] == accepted[..n];
    assert w.data[0..] == w.data;
  }

  /** Results that are not completions. */
  predicate Unsuccessful(rs: seq<WriteResult>) {
    forall i :: 0 <= i < |rs| ==> !rs[i].Written?
  }

  lemma {:induction false} CompletionsAppend(results: seq<WriteResult>, rs: seq<WriteResult>)
    requires Unsuccessful(rs)
    ensures Completions(results + rs) == Completions(results)
    decreases |rs|
  {
    if rs == [] {
      assert results + rs == results;
    } else {
      var front := rs[..|rs| - 1];
      CompletionsAppend(results, front);
      assert (results + rs)[..|results + rs| - 1] == results + front;
    }
  }

  lemma ReportedLocal(c: Conn, rs: seq<WriteResult>)
    requires Local(c) && Unsuccessful(rs)
    ensures var c1 := c.(results := c.results + rs); Local(c1) && Progress(c, c1)
  {
    CompletionsAppend(c.results, rs);
  }

  // ---------------------------------------------------------------- refilling the send buffer

  lemma WriteDataCons(w: QueuedWrite, ws: seq<QueuedWrite>)
    ensures Join(WriteData([w] + ws)) == w.data + Join(WriteData(ws))
  {
    JoinCons(w.data, WriteData(ws));
    assert WriteData([w] + ws) == [w.data] + WriteData(ws);
  }

  /** The bytes waiting, in the send buffer and behind it. */
  function Waiting(send: SendState, writes: seq<QueuedWrite>): seq<u8>
    requires send.WellPlaced()
  {
    send.Contents() + Join(WriteData(writes))
  }

  lemma WholeMoves(send: SendState, writes: seq<QueuedWrite>)
    requires send.Valid() && writes != [] && |writes[0].data| <= send.Available()
    ensures send.Write(writes[0].data).Valid()
    ensures Waiting(send.Write(writes[0].data), writes[1..]) == Waiting(send, writes)
  {
    var w, rest := writes[0], writes[1..];
    assert writes == [w] + rest;
    WriteDataCons(w, rest);
    WriteAppends(send, w.data);
    assert (send.Contents() + w.data) + Join(WriteData(rest)) == send.Contents() + (w.data + Join(WriteData(rest)));
  }

  lemma PartMoves(send: SendState, writes: seq<QueuedWrite>)
    requires send.Valid() && writes != [] && 0 < send.Available() < |writes[0].data|
    ensures var w, room := writes[0], send.Available(); var full := send.Write(w.data[..room]);
            && full.Valid() && full.Available() == 0
            && Waiting(full, [w.(data := w.data[room..], written := w.written + room)] + writes[1..]) ==
               Waiting(send, writes)
  {
    var w, rest, room := writes[0], writes[1..], send.Available();
    assert writes == [w] + rest;
    WriteDataCons(w, rest);
    WriteDataCons(w.(data := w.data[room..], written := w.written + room), rest);
    WriteAppends(send, w.data[..room]);
    RoomIsUsedUp(send, w.data[..room]);
    MoveBytes(send.Contents(), w.data, room, Join(WriteData(rest)));
  }

  /** Refilling moves bytes from the queued writes to the end of the send buffer. */
  lemma {:induction false} RefillConserves(send: SendState, writes: seq<QueuedWrite>, results: seq<WriteResult>)
    requires send.Valid()
    ensures var r := Refill(send, writes, results); r.send.Valid() && Waiting(r.send, r.writes) == Waiting(send, writes)
    decreases |writes|
  {
    if writes != [] && send.Available() > 0 {
      var w := writes[0];
      if |w.data| <= send.Available() {
        WholeMoves(send, writes);
        RefillWhole(send, writes, results);
        RefillConserves(send.Write(w.data), writes[1..], results + [Written(w.id, |w.data| + w.written)]);
      } else {
        PartMoves(send, writes);
        RefillPart(send, writes, results);
      }
    }
  }

  lemma MoveBytes(contents: seq<u8>, data: seq<u8>, n: nat, rest: seq<u8>)
    requires n <= |data|
    ensures (contents + data[..n]) + (data[n..] + rest) == contents + (data + rest)
  {
    assert data[..n] + data[n..] == data;
  }

  lemma CompleteAccounts(writes: seq<QueuedWrite>, results: seq<WriteResult>, accepted: seq<QueuedWrite>)
    requires Accounted(writes, results, accepted) && writes != []
    ensures Accounted(writes[1..], results + [Written(writes[0].id, |writes[0].data| + writes[0].written)], accepted)
  {
    var n := |accepted| - |writes|;
    var last := Written(writes[0].id, |writes[0].data| + writes[0].written);
    assert Remains(accepted[n], writes[0]);
    assert (results + [last])[..|results|] == results;
    assert Whole(accepted[..n + 1]) == Whole(accepted[..n]) + [(accepted[n].id, |accepted[n].data|)];
    forall i | 0 <= i < |writes[1..]| ensures Remains(accepted[n + 1 + i], writes[1..][i]) {
      assert Remains(accepted[n + (i + 1)], writes[i + 1]);
    }
  }

  lemma ShortenAccounts(writes: seq<QueuedWrite>, results: seq<WriteResult>, accepted: seq<QueuedWrite>, n: nat)
    requires Accounted(writes, results, accepted) && writes != [] && n <= |writes[0].data|
    ensures var w := writes[0];
            Accounted([w.(data := w.data[n..], written := w.written + n)] + writes[1..], results, accepted)
  {
    var k := |accepted| - |writes|;
    assert Remains(accepted[k], writes[0]);
    assert accepted[k].data[writes[0].written..][n..] == accepted[k].data[writes[0].written + n..];
  }

  /** What is left and what was reported account for what was accepted. */
  predicate Fair(r: Refilled, results: seq<WriteResult>, accepted: seq<QueuedWrite>) {
    Accounted(r.writes, r.results, accepted) && results <= r.results
  }

  lemma FairBefore(r: Refilled, results: seq<WriteResult>, result: WriteResult, accepted: seq<QueuedWrite>)
    requires Fair(r, results + [result], accepted)
    ensures Fair(r, results, accepted)
  {
  }

  /** Writes are reported complete first in, first out, each with its original length. */
  lemma {:induction false} RefillAccounts(send: SendState, writes: seq<QueuedWrite>, results: seq<WriteResult>,
                                          accepted: seq<QueuedWrite>)
    requires send.Valid() && Accounted(writes, results, accepted)
    ensures Fair(Refill(send, writes, results), results, accepted)
    decreases |writes|
  {
    if writes != [] && send.Available() > 0 {
      var w := writes[0];
      if |w.data| <= send.Available() {
        var result := Written(w.id, |w.data| + w.written);
        RefillWhole(send, writes, results);
        CompleteAccounts(writes, results, accepted);
        RefillAccounts(send.Write(w.data), writes[1..], results + [result], accepted);
        FairBefore(Refill(send, writes, results), results, result, accepted);
      } else {
        RefillPart(send, writes, results);
        ShortenAccounts(writes, results, accepted, send.Available());
      }
    }
  }

  // ---------------------------------------------------------------- sending payloads

  /** List b is a followed by one unacked DATA packet for each payload. */
  predicate Extends(a: seq<SentPacket>, b: seq<SentPacket>, payloads: seq<seq<u8>>) {
    && |b| == |a| + |payloads| && a <= b
    && forall k :: |a| <= k < |b| ==> b[k].ptype == Data && b[k].data == payloads[k - |a|] && !b[k].Acked()
  }

  lemma ExtendsChain(a: seq<SentPacket>, b: seq<SentPacket>, c: seq<SentPacket>, x: seq<seq<u8>>, y: seq<seq<u8>>)
    requires Extends(a, b, x) && Extends(b, c, y)
    ensures Extends(a, c, x + y)
  {
    forall k | |a| <= k < |c| ensures c[k].ptype == Data && c[k].data == (x + y)[k - |a|] && !c[k].Acked() {
      if k < |b| {
        assert c[k] == b[k];
      }
    }
  }

  /** Packet p carries one of the DATA packets of the list, with a current ack. */
  predicate IsDataOf(b: Buffers, p: Packet) {
    && p.header.ptype == Data && Carries(b.sent, p) && p.header.ackNum == b.recv.AckNum()
    && p.eack == b.recv.SelectiveAck()
    && p.header.version < 16 && p.header.extension <= 1
  }

  predicate AllDataOf(b: Buffers, ps: seq<Packet>) {
    forall i :: 0 <= i < |ps| ==> IsDataOf(b, ps[i])
  }

  /** The packet on the wire is the one in the list. */
  predicate Shown(q: SentPacket, p: Packet) {
    p.header.ptype == q.ptype && p.header.seqNum == q.seqNum && p.body == q.data
  }

  /** Each packet of list b behind those of list a has been sent, in order. */
  predicate Mirrors(a: seq<SentPacket>, b: seq<SentPacket>, sent: seq<Packet>) {
    |b| == |a| + |sent| && forall k :: 0 <= k < |sent| ==> Shown(b[|a| + k], sent[k])
  }

  lemma MirrorsChain(a: seq<SentPacket>, b: seq<SentPacket>, c: seq<SentPacket>, sent: seq<Packet>, more: seq<Packet>)
    requires Mirrors(a, b, sent) && Mirrors(b, c, more) && b <= c
    ensures Mirrors(a, c, sent + more)
  {
    forall k | 0 <= k < |sent + more| ensures Shown(c[|a| + k], (sent + more)[k]) {
      if k < |sent| {
        assert c[|a| + k] == b[|a| + k];
      } else {
        assert Shown(c[|b| + (k - |sent|)], more[k - |sent|]);
      }
    }
  }

  /** From c to c1 the payloads have been sequenced and sent, and nothing else has happened. */
  predicate Sends(c: Conn, payloads: seq<seq<u8>>, c1: Conn, sent: seq<Packet>) {
    && c.bufs.Some? && c1.bufs.Some?
    && c1 == c.(bufs := c1.bufs, out := c.out + sent)
    && c1.bufs.value == c.bufs.value.(sent := c1.bufs.value.sent)
    && c1.bufs.value.sent.init == c.bufs.value.sent.init
    && Extends(c.bufs.value.sent.packets, c1.bufs.value.sent.packets, payloads)
    && AllDataOf(c1.bufs.value, sent) && Mirrors(c.bufs.value.sent.packets, c1.bufs.value.sent.packets, sent)
  }

  lemma SendsChain(c: Conn, x: seq<seq<u8>>, c1: Conn, sent: seq<Packet>, y: seq<seq<u8>>, c2: Conn, more: seq<Packet>)
    requires Sends(c, x, c1, sent) && Sends(c1, y, c2, more)
    ensures Sends(c, x + y, c2, sent + more)
  {
    ExtendsChain(c.bufs.value.sent.packets, c1.bufs.value.sent.packets, c2.bufs.value.sent.packets, x, y);
    MirrorsChain(c.bufs.value.sent.packets, c1.bufs.value.sent.packets, c2.bufs.value.sent.packets, sent, more);
    assert (c.out + sent) + more == c.out + (sent + more);
    forall i | 0 <= i < |sent + more| ensures IsDataOf(c2.bufs.value, (sent + more)[i]) {
      if i < |sent| {
        assert IsDataOf(c1.bufs.value, sent[i]);
      }
    }
  }

  lemma SendOne(c: Conn, payloads: seq<seq<u8>>, clock: Clock)
    requires c.Valid() && c.bufs.Some? && payloads != []
    requires |c.bufs.value.sent.packets| + |payloads| <= MAX_PACKETS
    requires c.bufs.value.sent.ctrl.window + |Join(payloads)| <= c.bufs.value.sent.ctrl.maxWindow
    ensures var p := c.Stamped(Data, c.bufs.value.sent.NextSeqNum(), c.TsDiff(), payloads[0], clock);
            c.CanTransmit(p) && Sends(c, [payloads[0]], c.Transmit(p, clock), [p])
  {
    SendFits(c, payloads, clock);
    NextNumber(c.bufs.value.sent);
  }

  lemma {:induction false} SendAllSends(c: Conn, payloads: seq<seq<u8>>, seqNum: u16,
                                        clock: Clock) returns (sent: seq<Packet>)
    requires c.Valid() && c.bufs.Some? && seqNum == c.bufs.value.sent.NextSeqNum()
    requires |c.bufs.value.sent.packets| + |payloads| <= MAX_PACKETS
    requires payloads == [] || c.bufs.value.sent.ctrl.window + |Join(payloads)| <= c.bufs.value.sent.ctrl.maxWindow
    ensures Sends(c, payloads, c.SendAll(payloads, seqNum, clock), sent)
    decreases |payloads|
  {
    if payloads == [] {
      sent := [];
      assert c.out + [] == c.out;
    } else {
      assert [payloads[0]] + payloads[1..] == payloads;
      SendFits(c, payloads, clock);
      SendOne(c, payloads, clock);
      var p := c.Stamped(Data, seqNum, c.TsDiff(), payloads[0], clock);
      var c1 := c.Transmit(p, clock);
      var more := SendAllSends(c1, payloads[1..], Add(seqNum, 1), clock);
      SendsChain(c, [payloads[0]], c1, [p], payloads[1..], c1.SendAll(payloads[1..], Add(seqNum, 1), clock), more);
      sent := [p] + more;
    }
  }

  // ---------------------------------------------------------------- the effect on the pair

  lemma ExtendsGrows(a: seq<SentPacket>, b: seq<SentPacket>, payloads: seq<seq<u8>>)
    requires Extends(a, b, payloads)
    ensures SentGrows(a, b) && forall k :: 0 <= k < |b| && b[k].Acked() ==> k < |a| && a[k].Acked()
  {
    assert forall k :: 0 <= k < |a| ==> b[k] == a[k];
  }

  lemma ExtendsPlaces(a: seq<SentPacket>, b: seq<SentPacket>, payloads: seq<seq<u8>>, maxData: nat, fin: Option<u16>,
                      idle: bool, idle1: bool)
    requires Extends(a, b, payloads) && WellCut(payloads, maxData) && Sequenced(a, fin, idle)
    requires fin.Some? ==> payloads == [] && idle1
    ensures Sequenced(b, fin, idle1)
  {
    forall k | 0 <= k < |b| ensures Placed(b, k, fin) {
      if k < |a| {
        assert Placed(a, k, fin) && b[k] == a[k];
      }
    }
  }

  lemma ExtendsBytes(a: seq<SentPacket>, b: seq<SentPacket>, payloads: seq<seq<u8>>)
    requires Extends(a, b, payloads)
    ensures Stream(b) == Stream(a) + Join(payloads)
  {
    JoinAppend(Payloads(a), payloads);
    assert forall k :: 0 <= k < |a| ==> b[k] == a[k];
    assert Payloads(b) == Payloads(a) + payloads;
  }

  /** From c to c1, payloads have left the send buffer and have been sent, and writes have moved up behind them. */
  ghost predicate Flushed(c: Conn, c1: Conn, payloads: seq<seq<u8>>, sent: seq<Packet>) {
    && c.bufs.Some? && c1.bufs.Some?
    && c1 == c.(bufs := c1.bufs, out := c.out + sent, pendingWrites := c1.pendingWrites, results := c1.results)
    && c1.bufs.value.recv == c.bufs.value.recv && c1.bufs.value.sent.init == c.bufs.value.sent.init
    && Extends(c.bufs.value.sent.packets, c1.bufs.value.sent.packets, payloads)
    && AllDataOf(c1.bufs.value, sent) && Mirrors(c.bufs.value.sent.packets, c1.bufs.value.sent.packets, sent)
  }

  lemma FlushedLinked(c: Conn, c1: Conn, payloads: seq<seq<u8>>, sent: seq<Packet>, d: Conn)
    requires Linked(c, d) && Flushed(c, c1, payloads, sent) && |SentOf(c1.bufs)| < 0xFFFF
    ensures Linked(c1, d)
  {
    ExtendsGrows(SentOf(c.bufs), SentOf(c1.bufs), payloads);
    assert Handshake(c.endpoint, c.out + sent, d.bufs);
    SenderSteps(c, c1, d);
  }

  lemma FlushedOut(e: Endpoint, a: Option<Buffers>, b: Buffers, out: seq<Packet>, sent: seq<Packet>)
    requires OutOk(e, a, out) && BufsGrow(a, Some(b)) && b.recv.Valid() && AllDataOf(b, sent)
    ensures OutOk(e, Some(b), out + sent)
  {
    GenuineGrows(e, a, Some(b), out);
    forall p | p in sent ensures Genuine(e, Some(b), p) {
      AckIsTruthful(b.recv, p);
    }
  }

  lemma FlushedBytes(b: Buffers, b1: Buffers, writes: seq<QueuedWrite>, writes1: seq<QueuedWrite>,
                     accepted: seq<QueuedWrite>, payloads: seq<seq<u8>>)
    requires Conserved(Some(b), writes, accepted) && b1.send.WellPlaced()
    requires Extends(b.sent.packets, b1.sent.packets, payloads)
    requires Waiting(b.send, writes) == Join(payloads) + Waiting(b1.send, writes1)
    ensures Conserved(Some(b1), writes1, accepted)
  {
    ExtendsBytes(b.sent.packets, b1.sent.packets, payloads);
    Regroup(Stream(b.sent.packets), b.send.Contents(), Join(WriteData(writes)),
            Join(payloads), b1.send.Contents(), Join(WriteData(writes1)));
  }

  lemma Regroup(s: seq<u8>, x: seq<u8>, y: seq<u8>, p: seq<u8>, x1: seq<u8>, y1: seq<u8>)
    requires x + y == p + (x1 + y1)
    ensures (s + x) + y == ((s + p) + x1) + y1
  {
    assert (s + x) + y == s + (x + y);
    assert ((s + p) + x1) + y1 == s + (p + (x1 + y1));
  }

  lemma FlushedLocal(c: Conn, c1: Conn, payloads: seq<seq<u8>>, sent: seq<Packet>, maxData: nat)
    requires Local(c) && Flushed(c, c1, payloads, sent) && c1.Valid() && WellCut(payloads, maxData)
    requires Waiting(c.bufs.value.send, c.pendingWrites) ==
             Join(payloads) + Waiting(c1.bufs.value.send, c1.pendingWrites)
    requires Accounted(c1.pendingWrites, c1.results, c.drafts) && c.results <= c1.results
    requires c.LocalFin().Some? ==> payloads == [] && Idle(c1)
    ensures Local(c1) && Progress(c, c1)
  {
    ExtendsGrows(SentOf(c.bufs), SentOf(c1.bufs), payloads);
    ExtendsPlaces(SentOf(c.bufs), SentOf(c1.bufs), payloads, maxData, c.LocalFin(), Idle(c), Idle(c1));
    FlushedBytes(c.bufs.value, c1.bufs.value, c.pendingWrites, c1.pendingWrites, c.drafts, payloads);
    FlushedOut(c.endpoint, c.bufs, c1.bufs.value, c.out, sent);
  }

  /** Nothing is left to cut from an empty buffer. */
  lemma EmptyComposes(send: SendState, window: nat, maxData: nat)
    requires send.Valid() && send.pending == []
    ensures Compose(send, window, maxData) == Composed([], send)
  {
  }

  /** Cutting payloads off the front and refilling at the back lose no byte, and complete writes in order. */
  lemma CutAndRefill(send: SendState, window: nat, maxData: nat, writes: seq<QueuedWrite>, results: seq<WriteResult>,
                     accepted: seq<QueuedWrite>)
    requires send.Valid() && Accounted(writes, results, accepted)
    ensures CutFrom(Compose(send, window, maxData), send, window)
    ensures var cut := Compose(send, window, maxData); var r := Refill(cut.send, writes, results);
            && WellCut(cut.payloads, maxData) && r.send.Valid()
            && Waiting(send, writes) == Join(cut.payloads) + Waiting(r.send, r.writes)
            && Accounted(r.writes, r.results, accepted) && results <= r.results
  {
    var cut := Compose(send, window, maxData);
    ComposeConserves(send, window, maxData);
    ComposeCuts(send, window, maxData);
    RefillConserves(cut.send, writes, results);
    RefillAccounts(cut.send, writes, results, accepted);
    Associate(Join(cut.payloads), cut.send.Contents(), Join(WriteData(writes)));
  }

  lemma Associate(x: seq<u8>, y: seq<u8>, z: seq<u8>)
    ensures (x + y) + z == x + (y + z)
  {
  }

  /** What `ProcessWrites` does on a connection. */
  lemma ProcessWritesFlushes(c: Conn, clock: Clock) returns (sent: seq<Packet>)
    requires c.Valid() && c.stateType == Connected && c.HasNumbers()
    ensures var c1 := c.ProcessWrites(clock); var cut := c.NextPayloads();
            var r := Refill(cut.send, c.pendingWrites, c.results);
            && Flushed(c, c1, cut.payloads, sent)
            && c1.bufs.value.send == r.send && c1.pendingWrites == r.writes && c1.results == r.results
  {
    var cut := c.NextPayloads();
    PayloadsFit(c);
    RefillIsValid(cut.send, c.pendingWrites, c.results);
    var r := Refill(cut.send, c.pendingWrites, c.results);
    var c0 := c.(bufs := Some(c.bufs.value.(send := r.send)), pendingWrites := r.writes, results := r.results);
    sent := SendAllSends(c0, cut.payloads, c.bufs.value.sent.NextSeqNum(), clock);
  }

  lemma FlushKeeps(c: Conn, clock: Clock, d: Conn)
    requires Local(c) && Linked(c, d) && c.stateType == Connected && c.HasNumbers()
    ensures Keeps(c, c.ProcessWrites(clock), d)
  {
    var payloads, c1 := c.NextPayloads().payloads, c.ProcessWrites(clock);
    var sent := ProcessWritesFlushes(c, clock);
    CutAndRefill(c.bufs.value.send, Min(c.bufs.value.sent.Window(), c.peerRecvWindow), c.MaxData(),
                 c.pendingWrites, c.results, c.drafts);
    if Idle(c) {
      EmptyComposes(c.bufs.value.send, Min(c.bufs.value.sent.Window(), c.peerRecvWindow), c.MaxData());
    }
    FlushedLocal(c, c1, payloads, sent, c.MaxData());
    FlushedLinked(c, c1, payloads, sent, d);
  }

  lemma ProcessWritesKeeps(c: Conn, clock: Clock, d: Conn)
    requires Local(c) && Linked(c, d) && c.HasNumbers()
    ensures Keeps(c, c.ProcessWrites(clock), d)
  {
    match c.stateType
    case Connecting => SameKeeps(c, d);
    case Closed => ReportedLocal(c, c.Failures(c.pendingWrites));
    case Connected =>
      FlushKeeps(c, clock, d);
  }

  lemma OnWriteKeeps(c: Conn, id: nat, data: seq<u8>, clock: Clock, d: Conn)
    requires Local(c) && Linked(c, d) && c.HasNumbers()
    ensures Keeps(c, c.OnWrite(id, data, clock), d)
  {
    var c1 := c.Enqueue(id, data);
    EnqueueKeeps(c, id, data, d);
    ProcessWritesKeeps(c1, clock, d);
    KeepsChains(c, c1, c1.ProcessWrites(clock), d);
  }

  // ---------------------------------------------------------------- shutting down

  /** List b is a followed by an unacked FIN. */
  predicate Finished(a: seq<SentPacket>, b: seq<SentPacket>, fin: u16) {
    && |b| == |a| + 1 && a <= b
    && b[|a|].ptype == Fin && b[|a|].data == [] && !b[|a|].Acked() && b[|a|].seqNum == fin
  }

  lemma FinishedGrows(a: seq<SentPacket>, b: seq<SentPacket>, fin: u16)
    requires Finished(a, b, fin)
    ensures SentGrows(a, b) && forall k :: 0 <= k < |b| && b[k].Acked() ==> k < |a| && a[k].Acked()
  {
    assert forall k :: 0 <= k < |a| ==> b[k] == a[k];
  }

  lemma FinishedPlaces(a: seq<SentPacket>, b: seq<SentPacket>, fin: u16, idle: bool)
    requires Finished(a, b, fin) && Sequenced(a, None, idle) && idle
    ensures Sequenced(b, Some(fin), idle)
  {
    forall k | 0 <= k < |b| ensures Placed(b, k, Some(fin)) {
      if k < |a| {
        assert Placed(a, k, None) && b[k] == a[k];
      }
    }
  }

  lemma FinishedBytes(b: Buffers, b1: Buffers, fin: u16, writes: seq<QueuedWrite>, accepted: seq<QueuedWrite>)
    requires Conserved(Some(b), writes, accepted) && b1.send == b.send && Finished(b.sent.packets, b1.sent.packets, fin)
    ensures Conserved(Some(b1), writes, accepted)
  {
    FinishedStream(b.sent.packets, b1.sent.packets, fin);
    assert Outstanding(Some(b1)) == Outstanding(Some(b));
  }

  lemma FinishedStream(a: seq<SentPacket>, b: seq<SentPacket>, fin: u16)
    requires Finished(a, b, fin)
    ensures Stream(b) == Stream(a)
  {
    assert forall k :: 0 <= k < |a| ==> b[k] == a[k];
    assert Payloads(b)[..|a|] == Payloads(a);
  }

  /** Connection c with the FIN sequenced as `fin` and sent as p. */
  function WithFin(c: Conn, t: SentState, fin: u16, p: Packet): Conn
    requires c.bufs.Some?
  {
    c.(closing := Some(Closing(Some(fin), c.RemoteFin())), bufs := Some(c.bufs.value.(sent := t)), out := c.out + [p])
  }

  lemma FinLocal(c: Conn, t: SentState, fin: u16, p: Packet)
    requires Local(c) && c.WantsFin() && t.Valid() && t.init == c.bufs.value.sent.init
    requires Finished(c.bufs.value.sent.packets, t.packets, fin)
    requires Genuine(c.endpoint, Some(c.bufs.value.(sent := t)), p)
    ensures Local(WithFin(c, t, fin, p)) && Progress(c, WithFin(c, t, fin, p))
  {
    var b1 := Some(c.bufs.value.(sent := t));
    FinishedGrows(c.bufs.value.sent.packets, t.packets, fin);
    FinishedPlaces(c.bufs.value.sent.packets, t.packets, fin, Idle(c));
    FinishedBytes(c.bufs.value, b1.value, fin, c.pendingWrites, c.drafts);
    GenuineGrows(c.endpoint, c.bufs, b1, c.out);
    OutOkAppend(c.endpoint, b1, c.out, p);
  }

  lemma FinLinked(c: Conn, t: SentState, fin: u16, p: Packet, d: Conn)
    requires Linked(c, d) && c.bufs.Some? && p.header.ptype == Fin
    requires Finished(c.bufs.value.sent.packets, t.packets, fin)
    requires |t.packets| < 0xFFFF
    ensures Linked(WithFin(c, t, fin, p), d)
  {
    FinishedGrows(c.bufs.value.sent.packets, t.packets, fin);
    HandshakeAppend(c.endpoint, c.out, p, d.bufs);
    SenderSteps(c, WithFin(c, t, fin, p), d);
  }

  lemma FinIsGenuine(c: Conn, clock: Clock)
    requires c.Valid() && c.WantsFin() && c.CanFin()
    ensures var s := c.bufs.value.sent; var fin := s.NextSeqNum(); s.CanTransmit(fin, 0)
    ensures var s := c.bufs.value.sent; var fin := s.NextSeqNum(); var t := s.OnTransmit(fin, Fin, [], clock.now);
            && t.Valid() && t.init == s.init && Finished(s.packets, t.packets, fin)
            && Genuine(c.endpoint, Some(c.bufs.value.(sent := t)), c.Stamped(Fin, fin, 0, [], clock))
  {
    FreshTransmission(c.bufs.value.sent, Fin, [], clock.now);
    NextNumber(c.bufs.value.sent);
    AckIsTruthful(c.bufs.value.recv, c.Stamped(Fin, c.bufs.value.sent.NextSeqNum(), 0, [], clock));
  }

  lemma SendFinKeeps(c: Conn, clock: Clock, d: Conn)
    requires Local(c) && Linked(c, d) && c.WantsFin() && c.CanFin()
    ensures Keeps(c, c.Shutdown(clock), d)
  {
    var s := c.bufs.value.sent;
    var fin := s.NextSeqNum();
    FinIsGenuine(c, clock);
    var t, p := s.OnTransmit(fin, Fin, [], clock.now), c.Stamped(Fin, fin, 0, [], clock);
    FinLocal(c, t, fin, p);
    FinLinked(c, t, fin, p, d);
    assert c.Shutdown(clock) == WithFin(c, t, fin, p);
  }

  lemma ShutdownKeeps(c: Conn, clock: Clock, d: Conn)
    requires Local(c) && Linked(c, d) && c.CanFin()
    ensures Keeps(c, c.Shutdown(clock), d)
  {
    SameKeeps(c, d);
    match c.stateType
    case Connecting => CloseKeeps(c, c.err, d);
    case Closed =>
    case Connected =>
      if c.WantsFin() {
        SendFinKeeps(c, clock, d);
      } else if c.closing.None? {
        NoteClosingKeeps(c, Closing(None, None), d);
      }
  }

  lemma AfterEventKeeps(c: Conn, shutdown: bool, clock: Clock, d: Conn)
    requires Local(c) && Linked(c, d) && (shutdown ==> c.CanFin())
    ensures Keeps(c, c.AfterEvent(shutdown, clock), d)
  {
    SameKeeps(c, d);
    var c1 := if shutdown && c.stateType != Closed then c.Shutdown(clock) else c;
    if shutdown && c.stateType != Closed {
      ShutdownKeeps(c, clock, d);
    }
    if c1.stateType == Closed {
      ProcessWritesKeeps(c1, clock, d);
      KeepsChains(c, c1, c1.ProcessWrites(clock), d);
    }
  }

  // ---------------------------------------------------------------- timeouts

  lemma OnIdleKeeps(c: Conn, d: Conn)
    requires Local(c) && Linked(c, d)
    ensures Keeps(c, c.OnIdle(), d)
  {
    SameKeeps(c, d);
    CloseKeeps(c, Some(TimeOut), d);
  }

  lemma SlowedKeeps(c: Conn, clock: Clock, d: Conn)
    requires Local(c) && Linked(c, d) && c.bufs.Some?
    ensures Keeps(c, c.Slowed(clock), d)
  {
    SameKeeps(c, d);
    var t := c.bufs.value.sent.(ctrl := c.bufs.value.sent.ctrl.OnTimeout());
    ExpireKeeps(c.bufs.value.sent);
    RelistKeeps(c, t, d);
    var c1 := WithList(c, t);
    QuietSteps(c1, c1.(latestTimeout := Some(clock.wall)), d);
    KeepsChains(c, c1, c1.(latestTimeout := Some(clock.wall)), d);
  }

  /** Another attempt to connect. */
  lemma RetryKeeps(c: Conn, clock: Clock, d: Conn)
    requires Local(c) && Linked(c, d) && c.endpoint.role == Initiator
    ensures Keeps(c, c.(endpoint := c.endpoint.(attempts := c.endpoint.attempts + 1)).Emit(c.SynPacket(clock)), d)
  {
    var c1 := c.(endpoint := c.endpoint.(attempts := c.endpoint.attempts + 1));
    AttemptLocal(c, c1);
    EmitKeeps(c1, c.SynPacket(clock), d);
    KeepsChains(c, c1, c1.Emit(c.SynPacket(clock)), d);
  }

  lemma AttemptLocal(c: Conn, c1: Conn)
    requires Local(c) && c1 == c.(endpoint := c.endpoint.(attempts := c1.endpoint.attempts))
    ensures Local(c1) && Progress(c, c1)
  {
    forall p | p in c.out ensures Genuine(c1.endpoint, c1.bufs, p) {
      assert Genuine(c.endpoint, c.bufs, p);
    }
  }

  /** Only SYN, DATA and FIN packets have timers, and only those we sent. */
  lemma OnTimeoutKeeps(c: Conn, p: Packet, clock: Clock, d: Conn)
    requires Local(c) && Linked(c, d) && p in c.out
    requires (p.header.ptype == Syn || p.header.ptype == Data || p.header.ptype == Fin) && c.CanResend(p)
    ensures Keeps(c, c.OnTimeout(p, clock), d)
  {
    SameKeeps(c, d);
    match c.stateType
    case Connecting => if c.endpoint.role == Initiator { SynTimeoutKeeps(c, p, clock, d); }
    case Closed =>
    case Connected => if p.header.ptype != Syn { RenewKeeps(c, p, clock, d); }
  }

  lemma SynTimeoutKeeps(c: Conn, p: Packet, clock: Clock, d: Conn)
    requires Local(c) && Linked(c, d) && c.stateType == Connecting && c.endpoint.role == Initiator && c.CanResend(p)
    ensures Keeps(c, c.OnTimeout(p, clock), d)
  {
    RetryKeeps(c, clock, d);
    CloseKeeps(c, Some(TimeOut), d);
  }

  lemma RenewedIsRepeat(c: Conn, p: Packet, clock: Clock)
    requires c.bufs.Some? && Carries(c.bufs.value.sent, p) && (p.header.ptype == Data || p.header.ptype == Fin)
    requires Sendable(p)
    ensures IsRepeat(c, c.Renewed(p, clock))
  {
  }

  lemma RenewKeeps(c: Conn, p: Packet, clock: Clock, d: Conn)
    requires Local(c) && Linked(c, d) && p in c.out && (p.header.ptype == Data || p.header.ptype == Fin)
    requires c.CanResend(p)
    requires c.stateType == Connected
    ensures Keeps(c, c.OnTimeout(p, clock), d)
  {
    SlowedIsValid(c, clock);
    SlowedKeeps(c, clock, d);
    var c1 := c.Slowed(clock);
    assert Genuine(c.endpoint, c.bufs, p);
    RenewedIsRepeat(c1, p, clock);
    ResendKeeps(c1, c1.Renewed(p, clock), clock, d);
    KeepsChains(c, c1, c1.Transmit(c1.Renewed(p, clock), clock), d);
  }

  // ---------------------------------------------------------------- writers that change what they have handed over

  function ChunksOf(b: Option<Buffers>): seq<seq<u8>> {
    if b.Some? then b.value.send.pending else []
  }

  /** The send buffer and the queue are views of the new memory, as they were of the old, and what is cut stays cut. */
  predicate CanRewrite(c: Conn, pending: seq<seq<u8>>, writes: seq<QueuedWrite>, memory: seq<QueuedWrite>) {
    && SameLengths(ChunksOf(c.bufs), pending) && SameShape(c.pendingWrites, writes) && SameShape(c.drafts, memory)
    && Conserved(c.Rewritten(pending, writes, memory).bufs, writes, memory) && Accounted(writes, c.results, memory)
  }

  lemma RewriteIsValid(c: Conn, pending: seq<seq<u8>>, writes: seq<QueuedWrite>, memory: seq<QueuedWrite>)
    requires c.Valid() && CanRewrite(c, pending, writes, memory)
    ensures c.Rewritten(pending, writes, memory).Valid()
  {
    if c.bufs.Some? {
      JoinSameLength(c.bufs.value.send.pending, pending);
      OffsetInside(c.bufs.value.send);
    }
  }

  /** The bytes, cut like the chunks. */
  function Recut(chunks: seq<seq<u8>>, bytes: seq<u8>): (r: seq<seq<u8>>)
    requires |bytes| == |Join(chunks)|
    ensures SameLengths(chunks, r) && Join(r) == bytes
  {
    if chunks == [] then []
    else
      var n := |Join(chunks[..|chunks| - 1])|;
      JoinSnoc(Recut(chunks[..|chunks| - 1], bytes[..n]), bytes[n..]);
      Recut(chunks[..|chunks| - 1], bytes[..n]) + [bytes[n..]]
  }

  /** What is left of the last writes, of which as much is taken as is of the queued ones. */
  function Left(queued: seq<QueuedWrite>, memory: seq<QueuedWrite>): (r: seq<QueuedWrite>)
    requires |queued| <= |memory|
    requires forall i :: 0 <= i < |queued| ==> queued[i].written <= |memory[|memory| - |queued| + i].data|
  {
    seq(|queued|, (i: int) requires 0 <= i < |queued| =>
      var a := memory[|memory| - |queued| + i]; QueuedWrite(a.id, a.data[queued[i].written..], queued[i].written))
  }

  predicate IsSuffix(end: seq<u8>, all: seq<u8>) {
    |end| <= |all| && all[|all| - |end|..] == end
  }

  lemma SuffixOfJoin(data: seq<seq<u8>>, n: nat, w: nat)
    requires n < |data| && w <= |data[n]|
    ensures IsSuffix(Join([data[n][w..]] + data[n + 1..]), Join(data))
  {
    var front, tail := data[..n], data[n + 1..];
    assert data == front + ([data[n]] + tail);
    JoinAppend(front, [data[n]] + tail);
    JoinCons(data[n], tail);
    JoinCons(data[n][w..], tail);
    assert data[n] == data[n][..w] + data[n][w..];
    var end := data[n][w..] + Join(tail);
    assert Join(data) == Join(front) + data[n][..w] + end;
  }

  /** If only the first of them may be taken in part, they are the end of all bytes. */
  lemma LeftIsSuffix(queued: seq<QueuedWrite>, memory: seq<QueuedWrite>)
    requires |queued| <= |memory|
    requires forall i :: 0 <= i < |queued| ==> queued[i].written <= |memory[|memory| - |queued| + i].data|
    requires forall i :: 1 <= i < |queued| ==> queued[i].written == 0
    ensures IsSuffix(Join(WriteData(Left(queued, memory))), Join(WriteData(memory)))
  {
    var n := |memory| - |queued|;
    var data, left := WriteData(memory), WriteData(Left(queued, memory));
    if queued == [] {
      assert left == [];
    } else {
      SuffixOfJoin(data, n, queued[0].written);
      assert left == [data[n][queued[0].written..]] + data[n + 1..];
    }
  }

  lemma SameShapeIsSameLengths(a: seq<QueuedWrite>, b: seq<QueuedWrite>)
    requires SameShape(a, b)
    ensures |Join(WriteData(a))| == |Join(WriteData(b))|
  {
    JoinSameLength(WriteData(a), WriteData(b));
  }

  /** The queue is a view of any memory of the same shape. */
  lemma LeftAccounts(queued: seq<QueuedWrite>, results: seq<WriteResult>, drafts: seq<QueuedWrite>,
                     memory: seq<QueuedWrite>)
    requires Accounted(queued, results, drafts) && SameShape(drafts, memory)
    ensures |queued| <= |memory|
    ensures forall i :: 0 <= i < |queued| ==> queued[i].written <= |memory[|memory| - |queued| + i].data|
    ensures SameShape(queued, Left(queued, memory)) && Accounted(Left(queued, memory), results, memory)
  {
    var n := |memory| - |queued|;
    forall i | 0 <= i < |queued|
      ensures queued[i].written <= |memory[n + i].data| && queued[i].id == memory[n + i].id
      ensures |queued[i].data| == |memory[n + i].data| - queued[i].written
    {
      assert Remains(drafts[n + i], queued[i]);
    }
    assert Whole(memory[..n]) == Whole(drafts[..n]);
  }

  /** The send buffer is a view of any bytes as long as its own. */
  lemma RecutContents(s: SendState, bytes: seq<u8>) returns (pending: seq<seq<u8>>)
    requires s.WellPlaced() && |bytes| == |s.Contents()|
    ensures SameLengths(s.pending, pending)
    ensures s.(pending := pending).WellPlaced() && s.(pending := pending).Contents() == bytes
  {
    OffsetInside(s);
    var all := Join(s.pending)[..s.offset] + bytes;
    pending := Recut(s.pending, all);
    OffsetInside(s.(pending := pending));
    assert all[s.offset..] == bytes;
  }

  /**
   * Writers may change their memory exactly in so far as no byte is in a packet: whatever it holds then, there are
   * views of it for the send buffer and the queue.
   */
  lemma CanRewriteIff(c: Conn, memory: seq<QueuedWrite>)
    requires Local(c)
    ensures (exists pending, writes :: CanRewrite(c, pending, writes, memory)) <==>
            SameShape(c.drafts, memory) && Stream(SentOf(c.bufs)) <= Join(WriteData(memory))
  {
    if SameShape(c.drafts, memory) && Stream(SentOf(c.bufs)) <= Join(WriteData(memory)) {
      var pending, writes := Views(c, memory);
    }
    if exists pending, writes :: CanRewrite(c, pending, writes, memory) {
      var pending, writes :| CanRewrite(c, pending, writes, memory);
      assert Stream(SentOf(c.bufs)) <= Outstanding(c.Rewritten(pending, writes, memory).bufs);
    }
  }

  /** Between what is in packets and what is queued, the send buffer has what is missing of all bytes. */
  lemma Rebuffer(sent: SentState, s: SendState, left: seq<u8>, all: seq<u8>) returns (pending: seq<seq<u8>>)
    requires s.WellPlaced() && Stream(sent.packets) <= all && IsSuffix(left, all)
    requires |Stream(sent.packets)| + |s.Contents()| + |left| == |all|
    ensures SameLengths(s.pending, pending) && s.(pending := pending).WellPlaced()
    ensures Stream(sent.packets) + s.(pending := pending).Contents() + left == all
  {
    var stream := Stream(sent.packets);
    var middle := all[|stream|..|all| - |left|];
    pending := RecutContents(s, middle);
    assert all == stream + middle + left;
  }

  lemma LengthsAddUp(c: Conn, writes: seq<QueuedWrite>, memory: seq<QueuedWrite>)
    requires Conserved(c.bufs, c.pendingWrites, c.drafts)
    requires SameShape(c.pendingWrites, writes) && SameShape(c.drafts, memory)
    ensures |Outstanding(c.bufs)| + |Join(WriteData(writes))| == |Join(WriteData(memory))|
  {
    SameShapeIsSameLengths(c.drafts, memory);
    SameShapeIsSameLengths(c.pendingWrites, writes);
  }

  lemma Views(c: Conn, memory: seq<QueuedWrite>) returns (pending: seq<seq<u8>>, writes: seq<QueuedWrite>)
    requires Conserved(c.bufs, c.pendingWrites, c.drafts) && Accounted(c.pendingWrites, c.results, c.drafts)
    requires SameShape(c.drafts, memory) && Stream(SentOf(c.bufs)) <= Join(WriteData(memory))
    ensures CanRewrite(c, pending, writes, memory)
  {
    LeftAccounts(c.pendingWrites, c.results, c.drafts, memory);
    writes := Left(c.pendingWrites, memory);
    LeftIsSuffix(c.pendingWrites, memory);
    LengthsAddUp(c, writes, memory);
    if c.bufs.None? {
      pending := [];
    } else {
      pending := Rebuffer(c.bufs.value.sent, c.bufs.value.send, Join(WriteData(writes)), Join(WriteData(memory)));
    }
  }

  /** Whatever the writers do to their memory, the invariant is kept: it speaks of the bytes as they are cut. */
  lemma RewriteKeeps(c: Conn, pending: seq<seq<u8>>, writes: seq<QueuedWrite>, memory: seq<QueuedWrite>, d: Conn)
    requires Local(c) && Linked(c, d) && CanRewrite(c, pending, writes, memory)
    ensures Keeps(c, c.Rewritten(pending, writes, memory), d)
  {
    RewriteLocal(c, pending, writes, memory);
    RewriteGoesForward(c, pending, writes, memory);
    SenderSteps(c, c.Rewritten(pending, writes, memory), d);
  }

  /** Nothing is added to queues that are empty. */
  lemma RewriteIsIdle(c: Conn, pending: seq<seq<u8>>, writes: seq<QueuedWrite>, memory: seq<QueuedWrite>)
    requires c.Valid() && CanRewrite(c, pending, writes, memory)
    ensures Idle(c) ==> Idle(c.Rewritten(pending, writes, memory))
  {
  }

  /** Same lengths twice over are the same lengths. */
  lemma SameShapes(a: seq<QueuedWrite>, b: seq<QueuedWrite>, c: seq<QueuedWrite>)
    requires SameShape(a, b) && SameShape(b, c)
    ensures SameShape(a, c)
  {
  }

  lemma RewriteGoesForward(c: Conn, pending: seq<seq<u8>>, writes: seq<QueuedWrite>, memory: seq<QueuedWrite>)
    requires Local(c)
    ensures Progress(c, c.Rewritten(pending, writes, memory))
  {
  }

  lemma RewriteLocal(c: Conn, pending: seq<seq<u8>>, writes: seq<QueuedWrite>, memory: seq<QueuedWrite>)
    requires Local(c) && CanRewrite(c, pending, writes, memory)
    ensures Local(c.Rewritten(pending, writes, memory))
  {
    var c1 := c.Rewritten(pending, writes, memory);
    RewriteIsValid(c, pending, writes, memory);
    RewriteIsIdle(c, pending, writes, memory);
    SameShapes(c.accepted, c.drafts, memory);
    GenuineGrows(c.endpoint, c.bufs, c1.bufs, c.out);
  }
}
