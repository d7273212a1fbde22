/** What two connected endpoints keep true at every step: the invariant of a pair, and what only ever grows. */
module Invariants {
  import opened Words
  import opened Collections
  import opened Packets
  import opened ReceiveBuffers
  import opened Sending
  import opened Connections

  // ---------------------------------------------------------------- vocabulary

  /** The number before the first packet an endpoint sends. */
  function SendInit(e: Endpoint): u16 {
    if e.role == Initiator then e.synNum else Sub(e.synAck, 1)
  }

  function SentOf(b: Option<Buffers>): seq<SentPacket> {
    if b.Some? then b.value.sent.packets else []
  }

  /** The payload of each sequence number sent. */
  function Source(init: u16, ps: seq<SentPacket>): map<u16, seq<u8>> {
    map q: u16 | 0 <= q < 0x1_0000 && Index(init, q) < |ps| :: ps[Index(init, q)].data
  }

  function Payloads(ps: seq<SentPacket>): seq<seq<u8>> {
    seq(|ps|, (i: int) requires 0 <= i < |ps| => ps[i].data)
  }

  /** The bytes sequenced so far. */
  function Stream(ps: seq<SentPacket>): seq<u8> {
    Join(Payloads(ps))
  }

  function WriteData(ws: seq<QueuedWrite>): seq<seq<u8>> {
    seq(|ws|, (i: int) requires 0 <= i < |ws| => ws[i].data)
  }

  /** The bytes handed to the reader. */
  function BytesRead(r: seq<ReadEvent>): seq<u8> {
    if r == [] then [] else BytesRead(r[..|r| - 1]) + if r[|r| - 1].Chunk? then r[|r| - 1].data else []
  }

  lemma BytesReadSnoc(r: seq<ReadEvent>, e: ReadEvent)
    ensures BytesRead(r + [e]) == BytesRead(r) + if e.Chunk? then e.data else []
  {
    assert (r + [e])[..|r|] == r;
  }

  /** The bytes accepted from the writer. */
  function BytesAccepted(c: Conn): seq<u8> {
    Join(WriteData(c.accepted))
  }

  /** The same bytes as they were when they were cut into packets, or are now if they are not. */
  function BytesDrafted(c: Conn): seq<u8> {
    Join(WriteData(c.drafts))
  }

  // ---------------------------------------------------------------- one endpoint

  predicate Carries(s: SentState, p: Packet) {
    && Index(s.init, p.header.seqNum) < |s.packets|
    && s.packets[Index(s.init, p.header.seqNum)].ptype == p.header.ptype
    && s.packets[Index(s.init, p.header.seqNum)].data == p.body
  }

  /** A packet acknowledges only what was received when it was sent. */
  predicate Truthful(r: RecvState, p: Packet) {
    && Sub(p.header.ackNum, r.init) <= r.consumed
    && (p.eack.Some? ==> Vouched(r, p.header.ackNum, p.eack.value.Acked()))
  }

  predicate Vouched(r: RecvState, ackNum: u16, bits: seq<bool>) {
    |bits| <= 0x1_0000 && forall i :: 0 <= i < |bits| && bits[i] ==> r.WasWritten(Add(Add(ackNum, 2), i))
  }

  /** A packet fits the wire, claims only what is true, and carries only what was sequenced. */
  predicate Genuine(e: Endpoint, b: Option<Buffers>, p: Packet) {
    && Sendable(p)
    && match p.header.ptype
       case Syn => e.role == Initiator && p.header.seqNum == e.synNum
       case State => b.Some? && Truthful(b.value.recv, p)
       case Data => b.Some? && Truthful(b.value.recv, p) && Carries(b.value.sent, p)
       case Fin => b.Some? && Truthful(b.value.recv, p) && Carries(b.value.sent, p)
       case Reset => false
  }

  /** Every packet ever sent is genuine. */
  predicate OutOk(e: Endpoint, b: Option<Buffers>, out: seq<Packet>) {
    forall p :: p in out ==> Genuine(e, b, p)
  }

  /** A sent packet is a nonempty data packet, or the FIN, which is the last one. */
  predicate Placed(ps: seq<SentPacket>, k: nat, fin: Option<u16>)
    requires k < |ps|
  {
    || (ps[k].ptype == Data && ps[k].data != [])
    || (ps[k].ptype == Fin && ps[k].data == [] && k == |ps| - 1 && fin == Some(ps[k].seqNum))
  }

  /** Once the FIN is sent it is the last packet, and nothing waits to be sent. */
  predicate Sequenced(ps: seq<SentPacket>, fin: Option<u16>, idle: bool) {
    && (forall k :: 0 <= k < |ps| ==> Placed(ps, k, fin))
    && (fin.Some? ==> |ps| > 0 && ps[|ps| - 1].ptype == Fin && idle)
  }

  /** Nothing waits to be sequenced. */
  predicate Idle(c: Conn) {
    c.pendingWrites == [] && (c.bufs.Some? ==> c.bufs.value.send.pending == [])
  }

  /** The bytes sequenced, then the send buffer, then the queued writes: together all bytes accepted. */
  predicate Conserved(b: Option<Buffers>, writes: seq<QueuedWrite>, accepted: seq<QueuedWrite>) {
    && (b.Some? ==> b.value.send.WellPlaced())
    && Outstanding(b) + Join(WriteData(writes)) == Join(WriteData(accepted))
  }

  function Outstanding(b: Option<Buffers>): seq<u8>
    requires b.Some? ==> b.value.send.WellPlaced()
  {
    if b.Some? then Stream(b.value.sent.packets) + b.value.send.Contents() else []
  }

  /** The writes reported complete, with the lengths reported. */
  function Completions(results: seq<WriteResult>): seq<(nat, nat)> {
    if results == [] then []
    else
      var last := results[|results| - 1];
      Completions(results[..|results| - 1]) + if last.Written? then [(last.id, last.length)] else []
  }

  function Whole(ws: seq<QueuedWrite>): seq<(nat, nat)> {
    seq(|ws|, (i: int) requires 0 <= i < |ws| => (ws[i].id, |ws[i].data|))
  }

  /** What is left of an accepted write. */
  predicate Remains(a: QueuedWrite, w: QueuedWrite) {
    w.id == a.id && w.written <= |a.data| && w.data == a.data[w.written..]
  }

  /** What is left of the last accepted writes, of which only the first may be taken in part. */
  predicate AllRemain(writes: seq<QueuedWrite>, accepted: seq<QueuedWrite>) {
    && |writes| <= |accepted|
    && forall i :: 0 <= i < |writes| ==>
         Remains(accepted[|accepted| - |writes| + i], writes[i]) && (i > 0 ==> writes[i].written == 0)
  }

  /** Writes complete in the order they were accepted and report their original lengths; the others still wait. */
  predicate Accounted(writes: seq<QueuedWrite>, results: seq<WriteResult>, accepted: seq<QueuedWrite>) {
    AllRemain(writes, accepted) && Completions(results) == Whole(accepted[..|accepted| - |writes|])
  }

  /** The same writes, but for the values of their bytes. */
  predicate SameShape(a: seq<QueuedWrite>, b: seq<QueuedWrite>) {
    && |a| == |b|
    && forall i :: 0 <= i < |a| ==> b[i].id == a[i].id && b[i].written == a[i].written && |b[i].data| == |a[i].data|
  }

  /** A connection between two correct endpoints ends by itself, by a timeout, or by a reset from outside. */
  predicate Harmless(err: Option<ConnError>) {
    err.None? || err.value == TimeOut || err.value == PeerReset
  }

  predicate Shaped(c: Conn) {
    && c.cfg.maxPacketSize > 0
    && (c.endpoint.role == Acceptor ==> c.bufs.Some? && c.synState.Some? && c.bufs.value.recv.init == c.endpoint.synNum)
    && (c.bufs.Some? ==> c.bufs.value.sent.init == SendInit(c.endpoint))
    && (c.stateType == Connecting ==> c.bufs.None?)
    && (c.closing.Some? ==> c.bufs.Some?)
  }

  ghost predicate Local(c: Conn) {
    && c.Valid()
    && Shaped(c)
    && Harmless(c.err)
    && OutOk(c.endpoint, c.bufs, c.out)
    && Sequenced(SentOf(c.bufs), c.LocalFin(), Idle(c))
    && Conserved(c.bufs, c.pendingWrites, c.drafts)
    && Accounted(c.pendingWrites, c.results, c.drafts)
    && SameShape(c.accepted, c.drafts)
  }

  // ---------------------------------------------------------------- from a sender to a receiver

  /** Until the receiver is connected, every STATE it could be sent carries the number of the first packet. */
  predicate Handshake(s: Endpoint, out: seq<Packet>, r: Option<Buffers>) {
    r.None? ==> forall p :: p in out && p.header.ptype == State ==> p.header.seqNum == Add(SendInit(s), 1)
  }

  /** The receiver has only numbers among the first n after `init`. */
  predicate WithinReach(r: RecvState, init: u16, n: nat) {
    r.init == init && r.consumed <= n && forall q :: q in r.pending ==> Index(init, q) < n
  }

  /** Nothing is received that was not sent, whatever it carries. */
  predicate Reached(s: Endpoint, ps: seq<SentPacket>, r: Option<Buffers>) {
    |ps| < 0xFFFF && (r.Some? ==> WithinReach(r.value.recv, SendInit(s), |ps|))
  }

  predicate FinSeen(s: Endpoint, ps: seq<SentPacket>, fin: Option<u16>) {
    fin.Some? ==> Index(SendInit(s), fin.value) < |ps| && ps[Index(SendInit(s), fin.value)].ptype == Fin
  }

  /** Once the end of the stream was reported, nothing is left to read and the peer's FIN is consumed. */
  predicate EofHeld(r: Option<Buffers>, fin: Option<u16>, reading: seq<ReadEvent>) {
    Eof in reading ==> r.Some? && r.value.recv.buf == [] && fin == Some(r.value.recv.AckNum())
  }

  predicate Paired(s: Endpoint, r: Endpoint) {
    s.role != r.role && s.synNum == r.synNum
  }

  /** The receiver's numbers are the sender's, whatever bytes came with them. */
  predicate Aligned(s: Conn, r: Conn) {
    && Paired(s.endpoint, r.endpoint)
    && Handshake(s.endpoint, s.out, r.bufs)
    && Reached(s.endpoint, SentOf(s.bufs), r.bufs)
    && FinSeen(s.endpoint, SentOf(s.bufs), r.RemoteFin())
    && EofHeld(r.bufs, r.RemoteFin(), r.readOut)
  }

  predicate Linked(c: Conn, d: Conn) {
    Aligned(c, d) && Aligned(d, c)
  }

  ghost predicate Pair(c: Conn, d: Conn) {
    Local(c) && Local(d) && Linked(c, d)
  }

  // ---------------------------------------------------------------- what the bytes and the acks are worth

  /** What the receiver has assembled are the sender's payloads, in order. */
  predicate Delivered(s: Endpoint, ps: seq<SentPacket>, r: Option<Buffers>, reading: seq<ReadEvent>) {
    if r.None? then BytesRead(reading) == []
    else r.value.recv.init == SendInit(s) && r.value.recv.Agrees(Source(SendInit(s), ps), BytesRead(reading))
  }

  /** No phantom acks: what the sender takes for acked, the receiver has. */
  predicate AcksHeld(s: Endpoint, ps: seq<SentPacket>, r: Option<Buffers>) {
    |ps| < 0xFFFF && forall k :: 0 <= k < |ps| && ps[k].Acked() ==>
      r.Some? && r.value.recv.WasWritten(Number(SendInit(s), k))
  }

  /** What c has assembled is what d sent. */
  predicate Assembled(c: Conn, d: Conn) {
    Delivered(d.endpoint, SentOf(d.bufs), c.bufs, c.readOut)
  }

  /** What c takes for acked, d has received. */
  predicate Backed(c: Conn, d: Conn) {
    AcksHeld(c.endpoint, SentOf(c.bufs), d.bufs)
  }

  /** All four facts about a pair of endpoints. None depends on another. */
  predicate Trusted(c: Conn, d: Conn) {
    Assembled(c, d) && Backed(c, d) && Assembled(d, c) && Backed(d, c)
  }

  // ---------------------------------------------------------------- what only grows

  predicate SentGrows(a: seq<SentPacket>, b: seq<SentPacket>) {
    && |a| <= |b|
    && forall k :: 0 <= k < |a| ==>
         && b[k].seqNum == a[k].seqNum && b[k].ptype == a[k].ptype && b[k].data == a[k].data
         && (a[k].Acked() ==> b[k].Acked())
  }

  predicate RecvGrows(a: RecvState, b: RecvState) {
    b.init == a.init && a.consumed <= b.consumed && forall q :: a.WasWritten(q) ==> b.WasWritten(q)
  }

  predicate BufsGrow(a: Option<Buffers>, b: Option<Buffers>) {
    a.Some? ==>
      && b.Some? && b.value.sent.init == a.value.sent.init
      && SentGrows(a.value.sent.packets, b.value.sent.packets)
      && RecvGrows(a.value.recv, b.value.recv)
  }

  predicate WriteOnce(a: Option<u16>, b: Option<u16>) {
    a.Some? ==> b == a
  }

  /** An endpoint never goes back: not on its state, its FINs, its packets, its acks or its outputs. */
  predicate Progress(c: Conn, d: Conn) {
    && d.cfg == c.cfg && d.endpoint == c.endpoint.(attempts := d.endpoint.attempts)
    && (c.stateType == Closed ==> d.stateType == Closed) && (c.stateType == Connected ==> d.stateType != Connecting)
    && BufsGrow(c.bufs, d.bufs)
    && WriteOnce(c.LocalFin(), d.LocalFin()) && WriteOnce(c.RemoteFin(), d.RemoteFin())
    && (c.LocalFin().Some? ==> |SentOf(d.bufs)| == |SentOf(c.bufs)| && d.accepted == c.accepted)
    && c.out <= d.out && c.readOut <= d.readOut && c.results <= d.results && c.accepted <= d.accepted
  }

  lemma ProgressIsTransitive(a: Conn, b: Conn, c: Conn)
    requires Progress(a, b) && Progress(b, c)
    ensures Progress(a, c)
  {
  }

  /** The step from c to c1 keeps the invariant with the peer d, and goes forward. */
  ghost predicate Keeps(c: Conn, c1: Conn, d: Conn) {
    Local(c1) && Linked(c1, d) && Progress(c, c1)
  }

  lemma KeepsChains(c: Conn, c1: Conn, c2: Conn, d: Conn)
    requires Keeps(c, c1, d) && Keeps(c1, c2, d)
    ensures Keeps(c, c2, d)
  {
    ProgressIsTransitive(c, c1, c2);
  }

  /** Growth keeps genuine packets genuine. */
  lemma GenuineGrows(e: Endpoint, a: Option<Buffers>, b: Option<Buffers>, out: seq<Packet>)
    requires OutOk(e, a, out) && BufsGrow(a, b)
    ensures OutOk(e, b, out)
  {
    forall p | p in out ensures Genuine(e, b, p) {
      assert Genuine(e, a, p);
    }
  }

  lemma OutOkAppend(e: Endpoint, b: Option<Buffers>, out: seq<Packet>, p: Packet)
    requires OutOk(e, b, out) && Genuine(e, b, p)
    ensures OutOk(e, b, out + [p])
  {
  }

  lemma SourceGrows(init: u16, a: seq<SentPacket>, b: seq<SentPacket>)
    requires SentGrows(a, b)
    ensures forall q :: q in Source(init, a) ==> q in Source(init, b) && Source(init, b)[q] == Source(init, a)[q]
  {
  }

  lemma HandshakeAppend(s: Endpoint, out: seq<Packet>, p: Packet, r: Option<Buffers>)
    requires Handshake(s, out, r) && (r.Some? || p.header.ptype != State)
    ensures Handshake(s, out + [p], r)
  {
  }

  // ---------------------------------------------------------------- what an endpoint knows of its peer

  /** Nothing is consumed that was not sent. */
  lemma ConsumedWasSent(s: Endpoint, ps: seq<SentPacket>, r: Option<Buffers>, reading: seq<ReadEvent>)
    requires Delivered(s, ps, r, reading) && r.Some? && |ps| < 0xFFFF
    ensures r.value.recv.consumed <= |ps|
  {
    var recv := r.value.recv;
    if |ps| < recv.consumed {
      IndexOfNumber(SendInit(s), |ps|);
    }
  }

  /** The assembled stream is that of the first packets. */
  lemma {:induction false} AssembledIsStream(init: u16, ps: seq<SentPacket>, n: u16)
    requires |ps| < 0xFFFF && n <= |ps|
    ensures Covers(Source(init, ps), init, n) && Assemble(Source(init, ps), init, n) == Stream(ps[..n])
  {
    forall o: u16 | 1 <= o <= n ensures Add(init, o) in Source(init, ps) {
      IndexOfNumber(init, o - 1);
    }
    if n > 0 {
      AssembledIsStream(init, ps, n - 1);
      IndexOfNumber(init, n - 1);
      var parts := Payloads(ps[..n]);
      assert parts[..n - 1] == Payloads(ps[..n - 1]);
      assert parts[n - 1] == Source(init, ps)[Add(init, n)];
    }
  }

  /** The bytes read, and then those readable, are the payloads consumed so far. */
  lemma ReadIsStream(s: Endpoint, ps: seq<SentPacket>, r: Option<Buffers>, reading: seq<ReadEvent>)
    requires Delivered(s, ps, r, reading) && r.Some? && |ps| < 0xFFFF
    ensures r.value.recv.consumed <= |ps|
    ensures BytesRead(reading) + r.value.recv.buf == Stream(ps[..r.value.recv.consumed])
  {
    ConsumedWasSent(s, ps, r, reading);
    AssembledIsStream(SendInit(s), ps, r.value.recv.consumed);
  }

  /** The packet that carries the FIN is the last one the sender has. */
  lemma FinIsLast(c: Conn, f: u16)
    requires Local(c) && FinSeen(c.endpoint, SentOf(c.bufs), Some(f))
    ensures c.bufs.Some? && Index(SendInit(c.endpoint), f) == |SentOf(c.bufs)| - 1
    ensures c.LocalFin() == Some(f)
  {
    var ps := SentOf(c.bufs);
    var k := Index(SendInit(c.endpoint), f);
    assert Placed(ps, k, c.LocalFin());
    NumberOfIndex(SendInit(c.endpoint), f);
  }
}
