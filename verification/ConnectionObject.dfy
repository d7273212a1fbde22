/**
 * The connection as an object: its methods update its buffers in place and do what the functions on values say
 * (conn.go).
 */
module ConnectionObjects {
  import opened Words
  import opened Collections
  import opened CircularRanges
  import opened Packets
  import opened SendBuffers
  import opened ReceiveBuffers
  import opened Congestion
  import opened Sending
  import opened Connections

  /** Sending the rest again leads to the goal. */
  ghost predicate Resending(goal: Conn, c: Conn, rest: set<u16>, clock: Clock) {
    c.Valid() && c.Resendable(rest) && c.ResendAll(rest, clock) == goal
  }

  lemma ResendingOn(goal: Conn, c: Conn, rest: set<u16>, clock: Clock)
    requires Resending(goal, c, rest, clock) && rest != {}
    ensures var q := Smallest(rest);
            Index(c.bufs.value.sent.init, q) < |c.bufs.value.sent.packets| && c.CanTransmit(c.Repeat(q, clock))
    ensures var q := Smallest(rest); var d := c.Transmit(c.Repeat(q, clock), clock);
            Resending(goal, d, rest - {q}, clock) && SameContents(c.bufs.value.sent.packets, d.bufs.value.sent.packets)
  {
    ResendNext(c, rest, Smallest(rest), clock);
    ResendChangesTimesOnly(c, Smallest(rest), clock);
  }

  /** Sending the rest of the payloads leads to the goal. */
  ghost predicate SendingOn(goal: Conn, c: Conn, payloads: seq<seq<u8>>, seqNum: u16, clock: Clock) {
    && c.Valid() && c.bufs.Some? && seqNum == c.bufs.value.sent.NextSeqNum()
    && |c.bufs.value.sent.packets| + |payloads| <= MAX_PACKETS
    && (payloads == [] || c.bufs.value.sent.ctrl.window + |Join(payloads)| <= c.bufs.value.sent.ctrl.maxWindow)
    && c.SendAll(payloads, seqNum, clock) == goal
  }

  lemma SendingNext(goal: Conn, c: Conn, payloads: seq<seq<u8>>, seqNum: u16, clock: Clock)
    requires SendingOn(goal, c, payloads, seqNum, clock) && payloads != []
    ensures var p := c.Stamped(Data, seqNum, c.TsDiff(), payloads[0], clock);
            c.CanTransmit(p) && SendingOn(goal, c.Transmit(p, clock), payloads[1..], Add(seqNum, 1), clock)
  {
    SendFits(c, payloads, clock);
  }

  lemma SendingNoMore(goal: Conn, c: Conn, payloads: seq<seq<u8>>, seqNum: u16, clock: Clock)
    requires SendingOn(goal, c, payloads, seqNum, clock) && |payloads| == 0
    ensures c == goal
  {
  }

  /** Handing over what is readable leads to the goal. */
  ghost predicate Delivering(goal: Conn, c: Conn) {
    c.Valid() && c.bufs.Some? && c.Deliver() == goal
  }

  lemma DeliveringOn(goal: Conn, c: Conn, n: nat)
    requires Delivering(goal, c) && n == Min(c.cfg.maxPacketSize, |c.bufs.value.recv.buf|)
    ensures n == 0 ==> c == goal && c.bufs.value.recv.Read(c.cfg.maxPacketSize) == c.bufs.value.recv
    ensures n > 0 ==> Delivering(goal, c.HandOver())
  {
  }

  /** Packet p is what the number q carries. */
  predicate IsCargo(p: SentPacket, q: u16, init: u16, ps: seq<SentPacket>) {
    && Index(init, q) < |ps| && p.seqNum == q
    && p.ptype == ps[Index(init, q)].ptype && p.data == ps[Index(init, q)].data
  }

  /** The list holds the packets of the set, in ascending order. */
  ghost predicate AreInOrder(lost: seq<SentPacket>, names: set<u16>, init: u16, ps: seq<SentPacket>) {
    (forall q :: q in names ==> Index(init, q) < |ps| && ps[Index(init, q)].seqNum == q)
      && lost == InOrder(names, init, ps)
  }

  lemma NoneLeft(lost: seq<SentPacket>, rest: set<u16>, init: u16, ps: seq<SentPacket>)
    requires AreInOrder(lost, rest, init, ps) && lost == []
    ensures rest == {}
  {
  }

  lemma InOrderStep(lost: seq<SentPacket>, i: nat, rest: set<u16>, init: u16, ps: seq<SentPacket>)
    requires i < |lost| && AreInOrder(lost[i..], rest, init, ps)
    ensures rest != {} && IsCargo(lost[i], Smallest(rest), init, ps)
    ensures AreInOrder(lost[i + 1..], rest - {Smallest(rest)}, init, ps)
  {
    assert lost[i..][0] == lost[i] && lost[i..][1..] == lost[i + 1..];
  }

  lemma LostAreNumbered(s: SentState)
    requires s.Numbered() && s.LostSound()
    ensures forall q :: q in s.lost ==> s.packets[Index(s.init, q)].seqNum == q
  {
    forall q | q in s.lost ensures s.packets[Index(s.init, q)].seqNum == q {
      NumberOfIndex(s.init, q);
    }
  }

  /** Reads the next payload off the send buffer, as the memory has it now. */
  method CutPayload(send: SendBuffer, cap: nat) returns (payload: seq<u8>)
    requires send.Sound() && send.State().Valid()
    modifies send
    ensures send.Sound() && (old(send.Kept()) ==> send.Kept()) && send.memory == old(send.memory)
    ensures send.State().Valid() && payload == old(send.Next(cap))
    ensures send.State() == old(send.State()).Read(cap)
  {
    var data := new u8[cap](_ => 0);
    var n := send.Read(data);
    payload := data[..n];
  }

  /** Cuts the send buffer into payloads while there is window, as the memory has it now. */
  method ComposePayloads(send: SendBuffer, windowSize: nat, maxData: nat) returns (payloads: seq<seq<u8>>)
    requires send.Sound() && send.Seen().Valid()
    modifies send
    ensures send.Sound() && send.Kept() && send.memory == old(send.memory)
    ensures send.State().Valid() && Composed(payloads, send.State()) == Compose(old(send.Seen()), windowSize, maxData)
  {
    send.Look();
    payloads := CutAll(send, windowSize, maxData);
  }

  method CutAll(send: SendBuffer, windowSize: nat, maxData: nat) returns (payloads: seq<seq<u8>>)
    requires send.Sound() && send.Kept() && send.State().Valid()
    modifies send
    ensures send.Sound() && send.Kept() && send.memory == old(send.memory)
    ensures send.State().Valid() && Composed(payloads, send.State()) == Compose(old(send.State()), windowSize, maxData)
  {
    ghost var goal := Compose(send.State(), windowSize, maxData);
    payloads := [];
    var window: nat := windowSize;
    while window > 0
      invariant send.Sound() && send.Kept() && send.memory == old(send.memory)
      invariant Continues(goal, payloads, send.State(), window, maxData)
      decreases window
    {
      var done;
      done, payloads, window := CutNext(send, payloads, window, maxData, goal);
      if done {
        return;
      }
    }
    ContinuesNoMore(goal, payloads, send.State(), window, maxData);
  }

  /** One turn of that loop; it is the last if nothing could be cut. */
  method CutNext(send: SendBuffer, payloads: seq<seq<u8>>, window: nat, maxData: nat, ghost goal: Composed)
    returns (done: bool, more: seq<seq<u8>>, left: nat)
    requires send.Sound() && send.Kept() && window > 0 && Continues(goal, payloads, send.State(), window, maxData)
    modifies send
    ensures send.Sound() && send.Kept() && send.memory == old(send.memory) && send.State().Valid()
    ensures done ==> goal == Composed(more, send.State())
    ensures !done ==> left < window && Continues(goal, more, send.State(), left, maxData)
  {
    ghost var before := send.State();
    var payload := CutPayload(send, Min(window, maxData));
    FrontWithin(before, window, maxData);
    done := |payload| == 0;
    more := if done then payloads else payloads + [payload];
    left := window - |payload|;
    ContinuesAfter(goal, payloads, before, window, maxData, payload, send.State(), more, left);
  }

  lemma FrontWithin(send: SendState, window: nat, maxData: nat)
    requires send.Valid()
    ensures |send.Front(Min(window, maxData))| <= window
  {
    ReadTakesFront(send, Min(window, maxData));
  }

  lemma ContinuesAfter(goal: Composed, payloads: seq<seq<u8>>, send: SendState, window: nat, maxData: nat,
                       front: seq<u8>, read: SendState, more: seq<seq<u8>>, left: nat)
    requires Continues(goal, payloads, send, window, maxData) && window > 0
    requires front == send.Front(Min(window, maxData)) && read == send.Read(Min(window, maxData))
    requires left == window - |front| && more == if front == [] then payloads else payloads + [front]
    ensures front == [] ==> goal == Composed(more, read)
    ensures front != [] ==> left < window && Continues(goal, more, read, left, maxData)
  {
    if front == [] {
      ContinuesNoMore(goal, payloads, send, window, maxData);
    } else {
      ContinuesOn(goal, payloads, send, window, maxData, front, read);
    }
  }

  /** The payloads already cut, followed by those the rest of the buffer gives, are the goal. */
  ghost predicate Continues(goal: Composed, payloads: seq<seq<u8>>, send: SendState, window: nat, maxData: nat) {
    && send.Valid()
    && var rest := Compose(send, window, maxData); goal == Composed(payloads + rest.payloads, rest.send)
  }

  lemma ContinuesNoMore(goal: Composed, payloads: seq<seq<u8>>, send: SendState, window: nat, maxData: nat)
    requires Continues(goal, payloads, send, window, maxData) && (window == 0 || send.Front(Min(window, maxData)) == [])
    ensures goal == Composed(payloads, if window == 0 then send else send.Read(Min(window, maxData)))
  {
    assert payloads + [] == payloads;
  }

  lemma ContinuesOn(goal: Composed, payloads: seq<seq<u8>>, send: SendState, window: nat, maxData: nat, front: seq<u8>,
                    read: SendState)
    requires Continues(goal, payloads, send, window, maxData) && window > 0
    requires front == send.Front(Min(window, maxData)) && front != [] && read == send.Read(Min(window, maxData))
    ensures |front| <= window && Continues(goal, payloads + [front], read, window - |front|, maxData)
  {
    ComposeStep(send, window, maxData);
    Regrouped(goal, payloads, front, Compose(read, window - |front|, maxData), Compose(send, window, maxData));
  }

  lemma Regrouped(goal: Composed, payloads: seq<seq<u8>>, front: seq<u8>, rest: Composed, whole: Composed)
    requires goal == Composed(payloads + whole.payloads, whole.send)
    requires whole == Composed([front] + rest.payloads, rest.send)
    ensures goal == Composed((payloads + [front]) + rest.payloads, rest.send)
  {
    assert payloads + ([front] + rest.payloads) == (payloads + [front]) + rest.payloads;
  }

  /** Refilling from here leads to the goal. */
  predicate Refilling(goal: Refilled, send: SendState, writes: seq<QueuedWrite>, results: seq<WriteResult>) {
    send.Valid() && Refill(send, writes, results) == goal
  }

  lemma RefillingNoMore(goal: Refilled, send: SendState, writes: seq<QueuedWrite>, results: seq<WriteResult>)
    requires Refilling(goal, send, writes, results) && (writes == [] || send.Available() <= 0)
    ensures goal == Refilled(send, writes, results)
  {
  }

  lemma RefillingWhole(goal: Refilled, send: SendState, writes: seq<QueuedWrite>, results: seq<WriteResult>,
                       full: SendState, more: seq<WriteResult>)
    requires Refilling(goal, send, writes, results) && writes != [] && 0 < send.Available()
    requires var w := writes[0];
             && |w.data| <= send.Available() && full == send.Write(w.data)
             && more == results + [Written(w.id, |w.data| + w.written)]
    ensures Refilling(goal, full, writes[1..], more)
  {
    RefillWhole(send, writes, results);
  }

  lemma RefillingPart(goal: Refilled, send: SendState, writes: seq<QueuedWrite>, results: seq<WriteResult>,
                      full: SendState, left: seq<QueuedWrite>)
    requires Refilling(goal, send, writes, results) && writes != [] && 0 < send.Available() < |writes[0].data|
    requires var w, room := writes[0], send.Available();
             && full == send.Write(w.data[..room])
             && left == [w.(data := w.data[room..], written := w.written + room)] + writes[1..]
    ensures Refilling(goal, full, left, results) && full.Available() == 0
  {
    RefillPart(send, writes, results);
  }

  // ---------------------------------------------------------------- queued slices

  /** A write that waits, as a slice of the writer's memory. */
  datatype SlicedWrite = SlicedWrite(id: nat, slice: Slice, written: nat)

  /** The queue holds whole slices of this memory, as long as what was given. */
  ghost predicate Lent(writes: seq<SlicedWrite>, given: seq<QueuedWrite>, memory: set<array<u8>>) {
    && |writes| == |given|
    && forall i :: 0 <= i < |writes| ==>
         && writes[i].id == given[i].id && writes[i].written == given[i].written && writes[i].slice.mem in memory
         && writes[i].slice.InBounds() && writes[i].slice.Size() == |given[i].data|
  }

  /** They still hold what was given. */
  ghost predicate StillLent(writes: seq<SlicedWrite>, given: seq<QueuedWrite>, memory: set<array<u8>>)
    requires Lent(writes, given, memory)
    reads memory
  {
    forall i :: 0 <= i < |writes| ==> writes[i].slice.Bytes() == given[i].data
  }

  /** The queue as the memory has it now. */
  ghost function HeldWrites(writes: seq<SlicedWrite>, memory: set<array<u8>>): (held: seq<QueuedWrite>)
    requires forall i :: 0 <= i < |writes| ==> writes[i].slice.mem in memory
    reads memory
    ensures |held| == |writes|
    ensures forall i :: 0 <= i < |held| ==>
              held[i] == QueuedWrite(writes[i].id, writes[i].slice.Bytes(), writes[i].written)
  {
    if writes == [] then []
    else
      var w := writes[|writes| - 1];
      HeldWrites(writes[..|writes| - 1], memory) + [QueuedWrite(w.id, w.slice.Bytes(), w.written)]
  }

  lemma HeldIsLent(writes: seq<SlicedWrite>, given: seq<QueuedWrite>, memory: set<array<u8>>)
    requires Lent(writes, given, memory)
    ensures Lent(writes, HeldWrites(writes, memory), memory)
    ensures StillLent(writes, HeldWrites(writes, memory), memory)
    ensures StillLent(writes, given, memory) ==> HeldWrites(writes, memory) == given
  {
    if StillLent(writes, given, memory) {
      forall i | 0 <= i < |writes| ensures HeldWrites(writes, memory)[i] == given[i] {
        assert writes[i].slice.Bytes() == given[i].data;
      }
    }
  }

  lemma LentMore(writes: seq<SlicedWrite>, given: seq<QueuedWrite>, memory: set<array<u8>>, w: SlicedWrite)
    requires Lent(writes, given, memory) && w.slice.InBounds()
    ensures var g := QueuedWrite(w.id, w.slice.Bytes(), w.written);
            && Lent(writes + [w], given + [g], memory + {w.slice.mem})
            && (StillLent(writes, given, memory) ==> StillLent(writes + [w], given + [g], memory + {w.slice.mem}))
  {
  }

  lemma LentLess(writes: seq<SlicedWrite>, given: seq<QueuedWrite>, memory: set<array<u8>>)
    requires Lent(writes, given, memory) && writes != []
    ensures Lent(writes[1..], given[1..], memory)
    ensures StillLent(writes, given, memory) ==> StillLent(writes[1..], given[1..], memory)
  {
  }

  lemma LentPart(writes: seq<SlicedWrite>, given: seq<QueuedWrite>, memory: set<array<u8>>, n: nat)
    requires Lent(writes, given, memory) && writes != [] && n <= writes[0].slice.Size()
    ensures var w := writes[0]; var g := given[0];
            var left := [w.(slice := w.slice.Rest(n), written := w.written + n)] + writes[1..];
            var rest := [g.(data := g.data[n..], written := g.written + n)] + given[1..];
            Lent(left, rest, memory) && (StillLent(writes, given, memory) ==> StillLent(left, rest, memory))
  {
    FrontHolds(writes[0].slice, n);
  }

  /** The writes that wait for room in the send buffer. Nothing is copied here either. */
  class WriteQueue {
    var writes: seq<SlicedWrite>
    /** What the slices held when they were queued, or looked at last. */
    ghost var given: seq<QueuedWrite>
    /** The arrays they are part of, and perhaps others that earlier ones were. */
    ghost var memory: set<array<u8>>

    ghost predicate Sound()
      reads this
    {
      Lent(writes, given, memory)
    }

    /** The writers have left alone what they have queued. */
    ghost predicate Kept()
      requires Sound()
      reads this, memory
    {
      StillLent(writes, given, memory)
    }

    /** The queue as the memory has it now. */
    ghost function Seen(): (s: seq<QueuedWrite>)
      requires Sound()
      reads this, memory
      ensures Kept() ==> s == given
    {
      HeldIsLent(writes, given, memory);
      HeldWrites(writes, memory)
    }

    ghost method Look()
      requires Sound()
      modifies this`given
      ensures Sound() && Kept() && given == old(Seen())
    {
      HeldIsLent(writes, given, memory);
      given := HeldWrites(writes, memory);
    }

    constructor ()
      ensures Sound() && given == []
    {
      writes, given, memory := [], [], {};
    }

    /** Keeps the writer's slice. */
    method Push(id: nat, data: Slice)
      requires Sound() && data.InBounds()
      modifies this
      ensures Sound() && given == old(given) + [QueuedWrite(id, data.Bytes(), 0)] && (old(Kept()) ==> Kept())
    {
      LentMore(writes, given, memory, SlicedWrite(id, data, 0));
      given := given + [QueuedWrite(id, data.Bytes(), 0)];
      writes, memory := writes + [SlicedWrite(id, data, 0)], memory + {data.mem};
    }

    /** The first write is done. */
    method Pop()
      requires Sound() && writes != []
      modifies this`writes, this`given
      ensures Sound() && given == old(given)[1..] && (old(Kept()) ==> Kept())
    {
      LentLess(writes, given, memory);
      writes, given := writes[1..], given[1..];
    }

    /** n more bytes of the first write are taken. */
    method Shorten(n: nat)
      requires Sound() && writes != [] && n <= writes[0].slice.Size()
      modifies this`writes, this`given
      ensures Sound() && (old(Kept()) ==> Kept())
      ensures var w := old(given)[0];
              given == [w.(data := w.data[n..], written := w.written + n)] + old(given)[1..]
    {
      LentPart(writes, given, memory, n);
      var w := writes[0];
      writes := [w.(slice := w.slice.Rest(n), written := w.written + n)] + writes[1..];
      given := [given[0].(data := given[0].data[n..], written := given[0].written + n)] + given[1..];
    }
  }

  /** Moves queued writes into the send buffer while it has room. */
  method RefillFrom(send: SendBuffer, queue: WriteQueue, reported: seq<WriteResult>)
    returns (results: seq<WriteResult>)
    requires send.Sound() && send.State().Valid() && queue.Sound() && queue.Kept()
    modifies send, queue
    ensures send.Sound() && queue.Sound() && queue.Kept()
    ensures Refilled(send.State(), queue.given, results) == Refill(old(send.State()), old(queue.given), reported)
  {
    ghost var goal := Refill(send.State(), queue.given, reported);
    results := reported;
    while |queue.writes| > 0
      invariant send.Sound() && queue.Sound() && queue.Kept()
      invariant Refilling(goal, send.State(), queue.given, results)
      decreases |queue.writes|, send.State().Available()
    {
      var room := send.Available();
      if room <= 0 {
        RefillingNoMore(goal, send.State(), queue.given, results);
        return;
      }
      results := MoveNext(send, queue, results, room, goal);
    }
    RefillingNoMore(goal, send.State(), queue.given, results);
  }

  /** One turn of that loop. */
  method MoveNext(send: SendBuffer, queue: WriteQueue, results: seq<WriteResult>, room: int, ghost goal: Refilled)
    returns (more: seq<WriteResult>)
    requires send.Sound() && queue.Sound() && queue.Kept() && Refilling(goal, send.State(), queue.given, results)
    requires queue.writes != [] && 0 < room == send.State().Available()
    modifies send, queue
    ensures send.Sound() && queue.Sound() && queue.Kept() && Refilling(goal, send.State(), queue.given, more)
    ensures |queue.writes| < old(|queue.writes|)
         || (|queue.writes| == old(|queue.writes|) && 0 <= send.State().Available() < room)
  {
    if queue.writes[0].slice.Size() <= room {
      more := MoveWhole(send, queue, results, goal);
    } else {
      MovePart(send, queue, results, room, goal);
      more := results;
    }
  }

  method MoveWhole(send: SendBuffer, queue: WriteQueue, results: seq<WriteResult>, ghost goal: Refilled)
    returns (more: seq<WriteResult>)
    requires send.Sound() && queue.Sound() && queue.Kept() && Refilling(goal, send.State(), queue.given, results)
    requires queue.writes != [] && Max(1, queue.writes[0].slice.Size()) <= send.State().Available()
    modifies send, queue
    ensures send.Sound() && queue.Sound() && queue.Kept() && Refilling(goal, send.State(), queue.given, more)
    ensures |queue.writes| < old(|queue.writes|)
  {
    var w := queue.writes[0];
    ghost var before, given := send.State(), queue.given;
    assert w.id == given[0].id && w.written == given[0].written && w.slice.Bytes() == given[0].data;
    var _ := send.Write(w.slice);
    more := results + [Written(w.id, w.slice.Size() + w.written)];
    queue.Pop();
    RefillingWhole(goal, before, given, results, send.State(), more);
  }

  method MovePart(send: SendBuffer, queue: WriteQueue, ghost results: seq<WriteResult>, room: int, ghost goal: Refilled)
    requires send.Sound() && queue.Sound() && queue.Kept() && Refilling(goal, send.State(), queue.given, results)
    requires queue.writes != [] && 0 < room == send.State().Available() < queue.writes[0].slice.Size()
    modifies send, queue
    ensures send.Sound() && queue.Sound() && queue.Kept() && Refilling(goal, send.State(), queue.given, results)
    ensures |queue.writes| == old(|queue.writes|) && send.State().Available() == 0
  {
    ghost var before, given := send.State(), queue.given;
    assert queue.writes[0].slice.Bytes() == given[0].data;
    WriteFront(send, queue.writes[0].slice, room);
    queue.Shorten(room);
    RefillingPart(goal, before, given, results, send.State(), queue.given);
  }

  method WriteFront(send: SendBuffer, data: Slice, n: nat)
    requires send.Sound() && send.State().Valid() && data.InBounds() && n <= data.Size()
    modifies send
    ensures send.Sound() && send.State() == old(send.State()).Write(data.Bytes()[..n])
  {
    FrontHolds(data, n);
    var _ := send.Write(data.Front(n));
  }

  lemma SeenIsValid(c: Conn, chunks: seq<seq<u8>>, writes: seq<QueuedWrite>, memory: seq<QueuedWrite>)
    requires c.bufs.Some? ==> SameLengths(c.bufs.value.send.pending, chunks)
    ensures c.Valid() ==> c.Rewritten(chunks, writes, memory).Valid()
  {
    if c.Valid() && c.bufs.Some? {
      JoinSameLength(c.bufs.value.send.pending, chunks);
      OffsetInside(c.bufs.value.send);
    }
  }

  /** The objects a connection has once it is established. */
  class Established {
    const recv: ReceiveBuffer
    const send: SendBuffer
    const sent: SentPackets

    ghost function Repr(): set<object> {
      {recv, recv.buf, send, sent, sent.ctrl, sent.ctrl.delayAcc}
    }

    ghost function State(): Buffers
      reads Repr()
    {
      Buffers(recv.State(), send.State(), sent.State())
    }

    constructor (cfg: Config, recvInit: u16, sendInit: u16, ghost start: int)
      ensures fresh(Repr()) && recv.offset <= recv.buf.Length && sent.ctrl.ReadableAt(start)
      ensures send.Sound() && send.Kept()
      ensures State() == FreshBuffers(cfg, recvInit, sendInit)
    {
      recv := new ReceiveBuffer(cfg.bufferSize, recvInit);
      send := new SendBuffer(cfg.bufferSize);
      var ctrl := new Controller(cfg.maxPacketSize, cfg.targetDelay, cfg.initialTimeout, cfg.minTimeout, cfg.maxTimeout,
                                 cfg.undefinedInt, start);
      sent := new SentPackets(sendInit, ctrl);
    }
  }

  class Connection {
    const cfg: Config
    const cidSend: u16
    const cidRecv: u16
    var endpoint: Endpoint
    var stateType: StateType
    var err: Option<ConnError>
    var bufs: Established?
    var closing: Option<Closing>
    var peerTsDiff: int
    var peerRecvWindow: u32
    const pendingWrites: WriteQueue
    var latestTimeout: Option<int>
    var synState: Option<Packet>
    /** What went out on the socket, to the reader and to the writers. */
    var out: seq<Packet>
    var readOut: seq<ReadEvent>
    var results: seq<WriteResult>
    ghost var accepted: seq<QueuedWrite>
    ghost var drafts: seq<QueuedWrite>

    ghost function Repr(): set<object>
      reads this
    {
      {this, pendingWrites} + if bufs != null then bufs.Repr() else {}
    }

    ghost function State(): Conn
      reads Repr()
    {
      Conn(cfg, cidSend, cidRecv, endpoint, stateType, err, if bufs == null then None else Some(bufs.State()), closing,
           peerTsDiff, peerRecvWindow, pendingWrites.given, latestTimeout, synState, out, readOut, results, accepted,
           drafts)
    }

    /**
     * The queued writes and the chunks of the send buffer are slices of their arrays, the readable bytes lie within
     * theirs, and the controller's heap can be read at the given time.
     */
    ghost predicate Sound(now: int)
      reads Repr()
    {
      && pendingWrites.Sound()
      && (bufs != null ==>
           bufs.recv.offset <= bufs.recv.buf.Length && bufs.send.Sound() && bufs.sent.ctrl.ReadableAt(now))
    }

    /** The memory of the writers. */
    ghost function Memory(): set<array<u8>>
      reads Repr()
    {
      pendingWrites.memory + if bufs != null then bufs.send.memory else {}
    }

    /** The writers have left alone what waits to be sent. */
    ghost predicate Kept(now: int)
      requires Sound(now)
      reads Repr(), Memory()
    {
      pendingWrites.Kept() && (bufs != null ==> bufs.send.Kept())
    }

    /** The connection as the memory of the writers has it now, which holds these bytes of theirs. */
    ghost function Seen(memory: seq<QueuedWrite>, now: int): (c: Conn)
      requires Sound(now)
      reads Repr(), Memory()
      ensures State().Valid() ==> c.Valid()
      ensures Kept(now) && memory == drafts ==> c == State()
    {
      var chunks := if bufs != null then bufs.send.Seen().pending else [];
      SeenIsValid(State(), chunks, pendingWrites.Seen(), memory);
      State().Rewritten(chunks, pendingWrites.Seen(), memory)
    }

    /** Takes note of what the memory holds now. */
    ghost method Look(memory: seq<QueuedWrite>, now: int)
      requires Sound(now)
      modifies this`drafts, pendingWrites`given, (if bufs != null then {bufs.send} else {})`given
      ensures Sound(now) && Kept(now) && State() == old(Seen(memory, now))
    {
      if bufs != null {
        LookAtChunks(now);
      }
      LookAtQueue(memory, now);
    }

    ghost method LookAtQueue(memory: seq<QueuedWrite>, now: int)
      requires Sound(now)
      modifies this`drafts, pendingWrites`given
      ensures Sound(now) && pendingWrites.Kept() && (bufs != null && old(bufs.send.Kept()) ==> bufs.send.Kept())
      ensures State() == old(State()).(pendingWrites := old(pendingWrites.Seen()), drafts := memory)
    {
      pendingWrites.Look();
      drafts := memory;
    }

    ghost method LookAtChunks(now: int)
      requires Sound(now) && bufs != null
      modifies bufs.send`given
      ensures Sound(now) && bufs.send.Kept() && pendingWrites.Seen() == old(pendingWrites.Seen())
      ensures var c := old(State()); var seen := old(bufs.send.Seen());
              State() == c.(bufs := Some(c.bufs.value.(send := seen)))
    {
      bufs.send.Look();
    }

    function LocalFin(): Option<u16>
      reads this
    {
      if closing.Some? then closing.value.localFin else None
    }

    function RemoteFin(): Option<u16>
      reads this
    {
      if closing.Some? then closing.value.remoteFin else None
    }

    // ------------------------------------------------------------ packets to send

    /** A packet with the current ack number and selective ack. */
    method Stamp(ptype: PacketType, seqNum: u16, tsDiff: u32, body: seq<u8>, clock: Clock) returns (p: Packet)
      requires Sound(clock.wall) && bufs != null
      ensures p == State().Stamped(ptype, seqNum, tsDiff, body, clock)
    {
      var available := bufs.recv.Available();
      var sack := bufs.recv.SelectiveAck();
      p := Build(ptype, cidSend, Wrap32(clock.micros), Wrap32(available), seqNum, tsDiff, bufs.recv.AckNum(), sack,
        body);
    }

    method StatePacket(clock: Clock) returns (p: Option<Packet>)
      requires Sound(clock.wall) && State().Valid()
      ensures p == State().StatePacket(clock)
    {
      match stateType {
        case Connecting =>
          if endpoint.role == Initiator {
            return None;
          }
          return Some(Build(PacketType.State, cidSend, Wrap32(clock.micros), cfg.windowSize, endpoint.synAck,
                            Wrap32(peerTsDiff), endpoint.synNum, None, []));
        case Connected =>
          var state := Stamp(PacketType.State, bufs.sent.NextSeqNum(), Wrap32(peerTsDiff), [], clock);
          return Some(state);
        case Closed => return None;
      }
    }

    method Transmit(p: Packet, clock: Clock)
      requires Sound(clock.wall) && State().CanTransmit(p)
      modifies this`out, bufs.sent, bufs.sent.ctrl
      ensures Sound(clock.wall) && State() == old(State()).Transmit(p, clock)
    {
      bufs.sent.OnTransmit(p.header.seqNum, p.header.ptype, p.body, clock.now);
      out := out + [p];
    }

    // ------------------------------------------------------------ incoming packets

    method Abort(error: ConnError)
      modifies this`stateType, this`err
      ensures State() == old(State()).Abort(error)
    {
      if stateType == Connected && LocalFin().Some? {
        stateType := Closed;
        return;
      }
      stateType := Closed;
      err := Some(error);
    }

    method OnSyn(seqNum: u16)
      modifies this`stateType, this`err
      ensures State() == old(State()).OnSyn(seqNum)
    {
      var error: Option<ConnError> := None;
      if endpoint.role == Acceptor {
        if seqNum != endpoint.synNum {
          error := Some(BadSyn);
        }
      } else {
        error := Some(SynFromAcceptor);
      }
      if error.Some? && stateType != Closed {
        Abort(error.value);
      }
    }

    method OnState(seqNum: u16, ackNum: u16, ghost now: int)
      requires Sound(now)
      modifies this`stateType, this`bufs
      ensures Sound(now) && State() == old(State()).OnState(seqNum, ackNum)
      ensures bufs == old(bufs) || (bufs != null && fresh(bufs.Repr()))
    {
      if stateType == Connecting && endpoint.role == Initiator && ackNum == endpoint.synNum {
        bufs := new Established(cfg, Sub(seqNum, 1), endpoint.synNum, now);
        stateType := Connected;
      }
    }

    method Receive(seqNum: u16, body: seq<u8>, ghost now: int) returns (ok: bool)
      requires Sound(now) && State().Valid() && bufs != null
      modifies bufs.recv, bufs.recv.buf
      ensures Sound(now) && State() == old(State()).Receive(seqNum, body)
      ensures var recv := old(State()).bufs.value.recv; ok <==> recv.WasWritten(seqNum) || |body| <= recv.Available()
    {
      ok := bufs.recv.Write(body, seqNum);
    }

    method OnData(seqNum: u16, body: seq<u8>, ghost now: int)
      requires Sound(now) && State().Valid()
      modifies this`stateType, this`err, Repr() - {this}
      ensures Sound(now) && State() == old(State()).OnData(seqNum, body)
    {
      if |body| == 0 {
        Abort(EmptyPayload);
        return;
      }
      if stateType != Connected {
        return;
      }
      if RemoteFin().Some? && !Contains(bufs.recv.init, RemoteFin().value, seqNum) {
        stateType, err := Closed, Some(BadSeqNum);
        return;
      }
      var available := bufs.recv.Available();
      if |body| <= available {
        var _ := Receive(seqNum, body, now);
      }
    }

    method OnFin(seqNum: u16, body: seq<u8>, ghost now: int)
      requires Sound(now) && State().Valid()
      modifies this`stateType, this`err, this`closing, Repr() - {this}
      ensures Sound(now) && State() == old(State()).OnFin(seqNum, body)
    {
      if stateType != Connected {
        return;
      }
      if RemoteFin().Some? {
        if seqNum != RemoteFin().value {
          Abort(BadFin);
        }
      } else {
        FirstFin(seqNum, body, now);
      }
    }

    method FirstFin(seqNum: u16, body: seq<u8>, ghost now: int)
      requires Sound(now) && State().Valid() && stateType == Connected && RemoteFin().None?
      modifies this`closing, Repr() - {this}
      ensures Sound(now) && State() == old(State()).OnFin(seqNum, body)
    {
      if closing.Some? {
        closing := Some(closing.value.(remoteFin := Some(seqNum)));
        var _ := Receive(seqNum, body, now);
      } else {
        var ok := Receive(seqNum, body, now);
        if ok {
          closing := Some(Closing(None, Some(seqNum)));
        }
      }
    }

    method OnReset()
      modifies this`stateType, this`err
      ensures State() == old(State()).OnReset()
    {
      if stateType != Closed {
        Abort(PeerReset);
      }
    }

    method ProcessAck(ackNum: u16, sack: Option<SelectiveAck>, delay: int, clock: Clock)
      requires Sound(clock.wall) && State().Valid()
      modifies this`stateType, this`err, Repr() - {this}
      ensures Sound(clock.wall) && State() == old(State()).ProcessAck(ackNum, sack, delay, clock)
    {
      if stateType != Connected {
        return;
      }
      var error := bufs.sent.OnAck(ackNum, sack, delay, clock);
      if error == Some(InvalidAckNum) {
        Abort(BadAckNum);
      }
    }

    // ------------------------------------------------------------ retransmissions

    method RetransmitLost(clock: Clock)
      requires Sound(clock.wall) && State().Valid() && State().CanRetransmit()
      modifies this`out, Repr() - {this}
      ensures Sound(clock.wall) && State() == old(State()).RetransmitLost(clock)
    {
      if stateType != Connected || bufs.sent.lostPackets == {} {
        return;
      }
      var lost := bufs.sent.LostPackets();
      LostAreNumbered(bufs.sent.State());
      ResendEach(lost, bufs.sent.lostPackets, clock);
    }

    /** Sends the packets of the list again. */
    method ResendEach(lost: seq<SentPacket>, ghost names: set<u16>, clock: Clock)
      requires Sound(clock.wall) && State().Valid() && bufs != null && State().Resendable(names)
      requires AreInOrder(lost, names, bufs.sent.init, bufs.sent.packets)
      modifies this`out, bufs.sent, bufs.sent.ctrl
      ensures Sound(clock.wall) && State() == old(State()).ResendAll(names, clock)
    {
      ghost var ps, init, goal := bufs.sent.packets, bufs.sent.init, State().ResendAll(names, clock);
      ghost var rest := names;
      for i := 0 to |lost|
        invariant Sound(clock.wall) && Resending(goal, State(), rest, clock)
        invariant AreInOrder(lost[i..], rest, init, ps) && SameContents(ps, bufs.sent.packets)
      {
        InOrderStep(lost, i, rest, init, ps);
        ResendOne(goal, lost[i], rest, clock);
        rest := rest - {Smallest(rest)};
      }
      assert rest == {} by { NoneLeft(lost[|lost|..], rest, init, ps); }
    }

    method ResendOne(ghost goal: Conn, lost: SentPacket, ghost rest: set<u16>, clock: Clock)
      requires Sound(clock.wall) && bufs != null && Resending(goal, State(), rest, clock) && rest != {}
      requires IsCargo(lost, Smallest(rest), bufs.sent.init, bufs.sent.packets)
      modifies this`out, bufs.sent, bufs.sent.ctrl
      ensures Sound(clock.wall) && Resending(goal, State(), rest - {Smallest(rest)}, clock)
      ensures SameContents(old(bufs.sent.packets), bufs.sent.packets)
    {
      ResendingOn(goal, State(), rest, clock);
      var p := Stamp(lost.ptype, lost.seqNum, Wrap32(peerTsDiff), lost.data, clock);
      Transmit(p, clock);
    }

    // ------------------------------------------------------------ answering and closing

    method Respond(p: Packet, clock: Clock)
      requires Sound(clock.wall) && State().Valid()
      modifies this`out, this`synState
      ensures Sound(clock.wall) && State() == old(State()).Respond(p, clock)
    {
      match p.header.ptype {
        case Syn =>
          if synState.None? {
            var state := StatePacket(clock);
            if state.Some? {
              synState := state;
              out := out + [state.value];
            } else {
              out := out + [Build(PacketType.Reset, p.header.connId, Wrap32(clock.micros), 100_000, clock.random, 0, 0,
                None, [])];
            }
          }
        case Data => SendState(clock);
        case Fin => SendState(clock);
        case State =>
        case Reset =>
      }
    }

    method SendState(clock: Clock)
      requires Sound(clock.wall) && State().Valid()
      modifies this`out
      ensures Sound(clock.wall)
      ensures var state := old(State()).StatePacket(clock);
              State() == if state.Some? then old(State()).Emit(state.value) else old(State())
    {
      var state := StatePacket(clock);
      if state.Some? {
        out := out + [state.value];
      }
    }

    method CloseIfAcked(ghost now: int)
      requires Sound(now) && State().Valid()
      modifies this`stateType, this`err
      ensures Sound(now) && State() == old(State()).CloseIfAcked()
    {
      if stateType == Connected && LocalFin().Some? {
        var last := bufs.sent.LastAckNum();
        if last == LocalFin() {
          Close(now);
        }
      }
    }

    method Close(ghost now: int)
      requires Sound(now)
      modifies this`stateType, this`err
      ensures Sound(now) && State() == old(State()).(stateType := Closed, err := None)
    {
      stateType, err := Closed, None;
    }

    method CloseIfDrained(ghost now: int)
      requires Sound(now) && State().Valid()
      modifies this`stateType, this`err, this`readOut, Repr() - {this}
      ensures Sound(now) && State() == old(State()).CloseIfDrained()
    {
      if stateType == Connected && RemoteFin().Some? {
        var unacked := bufs.sent.HasUnackedPackets();
        if !unacked && bufs.recv.AckNum() == RemoteFin().value {
          ReadAndClose(now);
        }
      }
    }

    method ReadAndClose(ghost now: int)
      requires Sound(now) && State().Valid()
      modifies this`stateType, this`err, this`readOut, Repr() - {this}
      ensures Sound(now) && State() == old(State()).ProcessReads().(stateType := Closed, err := None)
    {
      ProcessReads(now);
      stateType, err := Closed, None;
    }

    method Conclude(ghost now: int)
      requires Sound(now) && State().Valid()
      modifies this`stateType, this`err, this`readOut, Repr() - {this}
      ensures Sound(now) && State() == old(State()).Conclude()
    {
      CloseIfAcked(now);
      CloseIfDrained(now);
      if stateType == Connected && RemoteFin().Some? && LocalFin().Some? {
        Close(now);
      }
    }

    // ------------------------------------------------------------ reading

    predicate AtEof()
      reads this, if bufs != null then {bufs.recv} else {}
      requires stateType == Connected ==> bufs != null
    {
      match stateType
      case Connecting => false
      case Connected => RemoteFin().Some? && bufs.recv.AckNum() == RemoteFin().value
      case Closed => true
    }

    method ProcessReads(ghost now: int)
      requires Sound(now) && State().Valid()
      modifies this`readOut, Repr() - {this}
      ensures Sound(now) && State() == old(State()).ProcessReads()
    {
      match stateType {
        case Connecting =>
        case Connected =>
          DeliverKeepsState(State());
          Deliver(now);
          assert AtEof() == State().AtEof();
          if AtEof() {
            readOut := readOut + [Eof];
          }
        case Closed => readOut := readOut + [ReadError(err)];
      }
    }

    /** Hands the readable bytes to the reader, one buffer of the packet size after the other. */
    method Deliver(ghost now: int)
      requires Sound(now) && State().Valid() && bufs != null
      modifies this`readOut, bufs.recv, bufs.recv.buf
      ensures Sound(now) && State() == old(State()).Deliver()
    {
      ghost var goal := State().Deliver();
      while !bufs.recv.IsEmpty()
        invariant Sound(now) && Delivering(goal, State())
        decreases |State().bufs.value.recv.buf|
      {
        ghost var c := State();
        var n := HandOver(now);
        DeliveringOn(goal, c, n);
        if n == 0 {
          return;
        }
      }
      DeliveringOn(goal, State(), 0);
    }

    /** One chunk, if it is not empty, goes to the reader. */
    method HandOver(ghost now: int) returns (n: nat)
      requires Sound(now) && State().Valid() && bufs != null
      modifies this`readOut, bufs.recv, bufs.recv.buf
      ensures Sound(now) && n == Min(cfg.maxPacketSize, |old(bufs.recv.State()).buf|)
      ensures State() == if n == 0 then old(State()) else old(State()).HandOver()
    {
      var chunk := ReadChunk(now);
      n := |chunk|;
      if n > 0 {
        readOut := readOut + [Chunk(chunk)];
      }
    }

    method ReadChunk(ghost now: int) returns (chunk: seq<u8>)
      requires Sound(now) && State().Valid() && bufs != null
      modifies bufs.recv, bufs.recv.buf
      ensures Sound(now) && chunk == old(bufs.recv.State()).buf[..Min(cfg.maxPacketSize, |old(bufs.recv.State()).buf|)]
      ensures var recv := old(bufs.recv.State()).Read(cfg.maxPacketSize);
              State() == old(State()).(bufs := Some(old(bufs.State()).(recv := recv)))
    {
      var out := new u8[cfg.maxPacketSize];
      var n := bufs.recv.Read(out);
      chunk := out[..n];
    }

    // ------------------------------------------------------------ one packet

    method Dispatch(p: Packet, clock: Clock)
      requires Sound(clock.wall) && State().Valid()
      modifies this`stateType, this`err, this`closing, this`bufs, Repr() - {this}
      ensures Sound(clock.wall) && State() == old(State()).Dispatch(p)
      ensures bufs == old(bufs) || (bufs != null && fresh(bufs.Repr()))
    {
      match p.header.ptype {
        case Syn => OnSyn(p.header.seqNum);
        case State => OnState(p.header.seqNum, p.header.ackNum, clock.wall);
        case Data => OnData(p.header.seqNum, p.body, clock.wall);
        case Fin => OnFin(p.header.seqNum, p.body, clock.wall);
        case Reset => OnReset();
      }
    }

    method Acknowledge(p: Packet, clock: Clock)
      requires Sound(clock.wall) && State().Valid()
      modifies this`stateType, this`err, Repr() - {this}
      ensures Sound(clock.wall) && State() == old(State()).Acknowledge(p, clock)
    {
      match p.header.ptype {
        case State => ProcessAck(p.header.ackNum, p.eack, p.header.tsDiff * 1000, clock);
        case Data => ProcessAck(p.header.ackNum, p.eack, p.header.tsDiff * 1000, clock);
        case Fin => ProcessAck(p.header.ackNum, p.eack, p.header.tsDiff * 1000, clock);
        case Syn =>
        case Reset =>
      }
    }

    method Answer(p: Packet, clock: Clock)
      requires Sound(clock.wall) && State().Valid() && State().CanRetransmit()
      modifies Repr()
      ensures Sound(clock.wall) && State() == old(State()).Answer(p, clock)
      ensures bufs == old(bufs)
    {
      RetransmitLost(clock);
      Respond(p, clock);
      Conclude(clock.wall);
    }

    method Observe(p: Packet, clock: Clock)
      requires Sound(clock.wall)
      modifies this`peerRecvWindow, this`peerTsDiff
      ensures Sound(clock.wall) && State() == old(State()).Observe(p, clock)
    {
      var diff := clock.micros - p.header.tsDiff;
      peerRecvWindow := p.header.wnd;
      peerTsDiff := if diff * 1000 > cfg.maxIdleTimeout then 1_000_000 else diff;
    }

    method Handle(p: Packet, clock: Clock)
      requires Sound(clock.wall) && State().Valid()
      modifies Repr()
      ensures Sound(clock.wall) && State() == old(State()).Handled(p, clock)
      ensures bufs == old(bufs) || (bufs != null && fresh(bufs.Repr()))
    {
      Observe(p, clock);
      DispatchIsValid(State(), p);
      Dispatch(p, clock);
      AcknowledgeIsValid(State(), p, clock);
      Acknowledge(p, clock);
    }

    /** The whole of `onPacket`. */
    method OnPacket(p: Packet, clock: Clock)
      requires Sound(clock.wall) && State().Valid() && State().Handled(p, clock).CanRetransmit()
      modifies Repr()
      ensures Sound(clock.wall) && State() == old(State()).OnPacket(p, clock)
      ensures bufs == old(bufs) || (bufs != null && fresh(bufs.Repr()))
    {
      Handle(p, clock);
      Answer(p, clock);
    }

    // ------------------------------------------------------------ writing

    method SendEach(payloads: seq<seq<u8>>, first: u16, clock: Clock)
      requires Sound(clock.wall) && State().Valid() && bufs != null && first == bufs.sent.State().NextSeqNum()
      requires |bufs.sent.packets| + |payloads| <= MAX_PACKETS
      requires payloads == [] || bufs.sent.ctrl.window + |Join(payloads)| <= bufs.sent.ctrl.maxWindow
      modifies this`out, bufs.sent, bufs.sent.ctrl
      ensures Sound(clock.wall) && State() == old(State()).SendAll(payloads, first, clock)
    {
      ghost var goal := State().SendAll(payloads, first, clock);
      assert payloads[0..] == payloads;
      var seqNum := first;
      for i := 0 to |payloads|
        invariant Sound(clock.wall) && SendingOn(goal, State(), payloads[i..], seqNum, clock)
      {
        seqNum := SendNext(payloads, i, seqNum, clock, goal);
      }
      SendingNoMore(goal, State(), payloads[|payloads|..], seqNum, clock);
    }

    /** One turn of that loop. */
    method SendNext(payloads: seq<seq<u8>>, i: nat, seqNum: u16, clock: Clock, ghost goal: Conn) returns (next: u16)
      requires Sound(clock.wall) && bufs != null && i < |payloads|
      requires SendingOn(goal, State(), payloads[i..], seqNum, clock)
      modifies this`out, bufs.sent, bufs.sent.ctrl
      ensures Sound(clock.wall) && SendingOn(goal, State(), payloads[i + 1..], next, clock)
    {
      SuffixStep(payloads, i);
      SendingNext(goal, State(), payloads[i..], seqNum, clock);
      var p := Stamp(Data, seqNum, Wrap32(peerTsDiff), payloads[i], clock);
      Transmit(p, clock);
      next := Add(seqNum, 1);
    }

    method FailWrites()
      requires pendingWrites.Sound()
      modifies this`results
      ensures State() == old(State()).(results := old(State()).results + old(State()).Failures(pendingWrites.given))
    {
      for i := 0 to |pendingWrites.writes|
        invariant results == old(results) + old(State()).Failures(pendingWrites.given)[..i]
      {
        results := results + [Failed(pendingWrites.writes[i].id, err)];
      }
    }

    /** What is cut are the bytes that the memory of the writers holds now. */
    method ProcessWrites(clock: Clock, ghost memory: seq<QueuedWrite>)
      requires Sound(clock.wall) && State().Valid() && Seen(memory, clock.wall).HasNumbers()
      modifies this`out, this`drafts, this`results, Repr() - {this}
      ensures Sound(clock.wall)
      ensures var c := if stateType == Connected then old(Seen(memory, clock.wall)) else old(State());
              State() == c.ProcessWrites(clock)
    {
      match stateType {
        case Connecting =>
        case Closed => FailWrites();
        case Connected => SendSeen(clock, memory);
      }
    }

    method SendSeen(clock: Clock, ghost memory: seq<QueuedWrite>)
      requires Sound(clock.wall) && State().Valid() && Seen(memory, clock.wall).HasNumbers() && stateType == Connected
      modifies this`out, this`drafts, this`results, Repr() - {this}
      ensures Sound(clock.wall) && stateType == Connected
      ensures State() == old(Seen(memory, clock.wall)).ProcessWrites(clock)
    {
      Look(memory, clock.wall);
      SendWaiting(clock);
    }

    /** Cuts what the windows allow, refills the send buffer, and sends what was cut. */
    method SendWaiting(clock: Clock)
      requires Sound(clock.wall) && Kept(clock.wall) && State().Valid() && State().HasNumbers()
      requires stateType == Connected
      modifies this`out, this`results, Repr() - {this}
      ensures Sound(clock.wall) && State() == old(State()).ProcessWrites(clock)
    {
      PayloadsFit(State());
      var payloads := TakePayloads(clock.wall);
      SendEach(payloads, bufs.sent.NextSeqNum(), clock);
    }

    /** Cuts the payloads the windows allow off the send buffer, and refills it. */
    method TakePayloads(ghost now: int) returns (payloads: seq<seq<u8>>)
      requires Sound(now) && Kept(now) && State().Valid() && bufs != null
      modifies this`results, pendingWrites, bufs.send
      ensures Sound(now) && State().Valid() && payloads == old(State()).NextPayloads().payloads
      ensures var c := old(State()); var r := Refill(c.NextPayloads().send, c.pendingWrites, c.results);
              State() == c.(bufs := Some(c.bufs.value.(send := r.send)), pendingWrites := r.writes,
                results := r.results)
    {
      payloads := CutPayloads(now);
      MoveWrites(now);
    }

    method CutPayloads(ghost now: int) returns (payloads: seq<seq<u8>>)
      requires Sound(now) && Kept(now) && State().Valid() && bufs != null
      modifies bufs.send
      ensures Sound(now) && Kept(now) && State().Valid() && payloads == old(State()).NextPayloads().payloads
      ensures var c := old(State()); State() == c.(bufs := Some(c.bufs.value.(send := c.NextPayloads().send)))
    {
      var available := bufs.sent.ctrl.BytesAvailableInWindow();
      payloads := ComposePayloads(bufs.send, Min(available, peerRecvWindow), Sub(cfg.maxPacketSize, 64));
    }

    method MoveWrites(ghost now: int)
      requires Sound(now) && pendingWrites.Kept() && State().Valid() && bufs != null
      modifies this`results, pendingWrites, bufs.send
      ensures Sound(now) && State().Valid()
      ensures var c := old(State()); var r := Refill(c.bufs.value.send, c.pendingWrites, c.results);
              State() == c.(bufs := Some(c.bufs.value.(send := r.send)), pendingWrites := r.writes,
                results := r.results)
    {
      RefillIsValid(bufs.send.State(), pendingWrites.given, results);
      results := RefillFrom(bufs.send, pendingWrites, results);
    }

    method Enqueue(id: nat, data: Slice, ghost now: int)
      requires Sound(now) && data.InBounds()
      modifies this`accepted, this`drafts, this`results, pendingWrites
      ensures Sound(now) && State() == old(State()).Enqueue(id, data.Bytes()) && (old(Kept(now)) ==> Kept(now))
    {
      match stateType {
        case Connecting => Queue(id, data, now);
        case Connected =>
          if closing.None? || (LocalFin().None? && RemoteFin().Some?) {
            Queue(id, data, now);
          } else {
            Report(Refused(id), now);
          }
        case Closed => Report(Failed(id, err), now);
      }
    }

    method Report(result: WriteResult, ghost now: int)
      requires Sound(now)
      modifies this`results
      ensures Sound(now) && (old(Kept(now)) ==> Kept(now))
      ensures State() == old(State()).(results := old(results) + [result])
    {
      results := results + [result];
    }

    method Queue(id: nat, data: Slice, ghost now: int)
      requires Sound(now) && data.InBounds()
      modifies this`accepted, this`drafts, pendingWrites
      ensures Sound(now) && (old(Kept(now)) ==> Kept(now))
      ensures State() == old(State()).Queued(QueuedWrite(id, data.Bytes(), 0))
    {
      ghost var w := QueuedWrite(id, data.Bytes(), 0);
      pendingWrites.Push(id, data);
      accepted, drafts := accepted + [w], drafts + [w];
    }

    /** The writer's slice is kept, and what is cut are the bytes that the memory of the writers holds now. */
    method OnWrite(id: nat, data: Slice, clock: Clock, ghost memory: seq<QueuedWrite>)
      requires Sound(clock.wall) && State().Valid() && data.InBounds()
      requires Seen(memory, clock.wall).HasNumbers()
      modifies Repr()
      ensures Sound(clock.wall) && bufs == old(bufs)
      ensures State() == old(Seen(memory, clock.wall)).OnWrite(id, old(data.Bytes()), clock)
    {
      Look(memory, clock.wall);
      WriteOn(id, data, clock);
    }

    method WriteOn(id: nat, data: Slice, clock: Clock)
      requires Sound(clock.wall) && Kept(clock.wall) && State().Valid() && State().HasNumbers() && data.InBounds()
      modifies Repr()
      ensures Sound(clock.wall) && bufs == old(bufs)
      ensures State() == old(State()).OnWrite(id, old(data.Bytes()), clock)
    {
      Enqueue(id, data, clock.wall);
      Flush(clock);
    }

    method Flush(clock: Clock)
      requires Sound(clock.wall) && Kept(clock.wall) && State().Valid() && State().HasNumbers()
      modifies this`out, this`drafts, this`results, Repr() - {this}
      ensures Sound(clock.wall) && State() == old(State()).ProcessWrites(clock)
    {
      ProcessWrites(clock, drafts);
    }

    // ------------------------------------------------------------ shutting down

    method Shutdown(clock: Clock)
      requires Sound(clock.wall) && State().Valid() && State().CanFin()
      modifies this`stateType, this`closing, this`out, Repr() - {this}
      ensures Sound(clock.wall) && State() == old(State()).Shutdown(clock)
    {
      match stateType {
        case Connecting => stateType := Closed;
        case Closed =>
        case Connected =>
          if LocalFin().None? && |pendingWrites.writes| == 0 && bufs.send.IsEmpty() {
            SendFin(clock);
          } else if closing.None? {
            closing := Some(Closing(None, None));
          }
      }
    }

    method SendFin(clock: Clock)
      requires Sound(clock.wall) && State().Valid() && State().WantsFin() && State().CanFin()
      modifies this`closing, this`out, bufs.sent, bufs.sent.ctrl
      ensures Sound(clock.wall) && State() == old(State()).Shutdown(clock)
    {
      ghost var c := State();
      var fin := bufs.sent.NextSeqNum();
      var p := Stamp(Fin, fin, 0, [], clock);
      FinFits(c, clock);
      closing := Some(Closing(Some(fin), RemoteFin()));
      assert State() == c.(closing := Some(Closing(Some(fin), c.RemoteFin())));
      Transmit(p, clock);
    }

    method OnIdle()
      modifies this`stateType, this`err
      ensures State() == old(State()).OnIdle()
    {
      if stateType != Closed {
        stateType, err := Closed, Some(TimeOut);
      }
    }

    /** The end of each turn of the event loop; `done` tells whether it was the last. */
    method AfterEvent(shutdown: bool, clock: Clock) returns (done: bool)
      requires Sound(clock.wall) && State().Valid() && (shutdown ==> State().CanFin())
      modifies Repr()
      ensures Sound(clock.wall) && State() == old(State()).AfterEvent(shutdown, clock) && bufs == old(bufs)
      ensures done <==> stateType == Closed
    {
      if shutdown && stateType != Closed {
        Shutdown(clock);
      }
      done := stateType == Closed;
      if done {
        ProcessWrites(clock, drafts);
      }
    }

    // ------------------------------------------------------------ timeouts

    method SlowDown(clock: Clock)
      requires Sound(clock.wall) && bufs != null
      modifies this`latestTimeout, bufs.sent.ctrl
      ensures Sound(clock.wall) && State() == old(State()).Slowed(clock)
    {
      if latestTimeout.None? || clock.wall - latestTimeout.value > bufs.sent.ctrl.timeout {
        bufs.sent.OnTimeout();
        latestTimeout := Some(clock.wall);
      }
    }

    method Renew(p: Packet, clock: Clock)
      requires Sound(clock.wall) && State().Valid() && bufs != null && State().Resendable({p.header.seqNum})
      requires |p.body| < 0x1_0000_0000
      modifies this`out, bufs.sent, bufs.sent.ctrl
      ensures State().bufs.Some? && Sound(clock.wall)
      ensures old(State()).CanTransmit(old(State()).Renewed(p, clock))
      ensures State() == old(State()).Transmit(old(State()).Renewed(p, clock), clock)
    {
      RenewedFits(State(), p, clock);
      var available := bufs.recv.Available();
      var sack := bufs.recv.SelectiveAck();
      var renewed := Packet(p.header.(wnd := Wrap32(available), timestamp := clock.micros, tsDiff := Wrap32(peerTsDiff),
                                      ackNum := bufs.recv.AckNum()),
                            sack, p.body);
      Transmit(renewed, clock);
    }

    method OnTimeout(p: Packet, clock: Clock)
      requires Sound(clock.wall) && State().Valid() && State().CanResend(p)
      modifies this`endpoint, this`stateType, this`err, this`latestTimeout, this`out, Repr() - {this}
      ensures Sound(clock.wall) && State() == old(State()).OnTimeout(p, clock)
    {
      match stateType {
        case Connecting => if endpoint.role == Initiator { Retry(p, clock); }
        case Connected =>
          if p.header.ptype != Syn {
            SlowedIsValid(State(), clock);
            SlowDown(clock);
            Renew(p, clock);
          }
        case Closed =>
      }
    }

    /** Another SYN, unless there were enough of them. */
    method Retry(ghost p: Packet, clock: Clock)
      requires stateType == Connecting && endpoint.role == Initiator && State().Valid() && State().CanResend(p)
      modifies this`endpoint, this`stateType, this`err, this`out
      ensures State() == old(State()).OnTimeout(p, clock)
    {
      if endpoint.attempts >= cfg.maxConnAttempts {
        stateType, err := Closed, Some(TimeOut);
      } else {
        endpoint := endpoint.(attempts := endpoint.attempts + 1);
        out := out + [SynPacket(clock)];
      }
    }

    function SynPacket(clock: Clock): Packet
      reads this
    {
      Build(Syn, cidRecv, Wrap32(clock.micros), cfg.windowSize, endpoint.synNum, 0, 0, None, [])
    }

    // ------------------------------------------------------------ set-up

    constructor Dial(cfg: Config, cidSend: u16, cidRecv: u16, synNum: u16, clock: Clock)
      ensures Sound(clock.wall) && State() == Connections.Dial(cfg, cidSend, cidRecv, synNum, clock)
    {
      this.cfg, this.cidSend, this.cidRecv, endpoint := cfg, cidSend, cidRecv, Endpoint(Initiator, synNum, 0, 1);
      stateType, err, bufs, closing := Connecting, None, null, None;
      peerTsDiff, peerRecvWindow, latestTimeout, synState := 0, 0xFFFF_FFFF, None, None;
      out, readOut, results, accepted, drafts := [], [], [], [], [];
      pendingWrites := new WriteQueue();
      new;
      out := out + [SynPacket(clock)];
    }

    constructor Accept(cfg: Config, cidSend: u16, cidRecv: u16, syn: Packet, synAck: u16, clock: Clock)
      ensures Sound(clock.wall) && State() == Connections.Accept(cfg, cidSend, cidRecv, syn, synAck, clock)
      ensures bufs != null && fresh(bufs.Repr())
    {
      this.cfg, this.cidSend, this.cidRecv, endpoint := cfg, cidSend, cidRecv,
        Endpoint(Acceptor, syn.header.seqNum, synAck, 0);
      stateType, err, bufs, closing := Connecting, None, null, None;
      peerTsDiff, peerRecvWindow := clock.micros - syn.header.timestamp, syn.header.wnd;
      latestTimeout, synState := None, None;
      out, readOut, results, accepted, drafts := [], [], [], [], [];
      pendingWrites := new WriteQueue();
      new;
      Greet(clock);
    }

    /** The acceptor's first steps: it answers the SYN and is connected. */
    method Greet(clock: Clock)
      requires bufs == null && stateType == Connecting && endpoint.role == Acceptor && pendingWrites.Sound()
      modifies this`synState, this`out, this`bufs, this`stateType
      ensures Sound(clock.wall) && bufs != null && fresh(bufs.Repr())
      ensures var c := old(State()); var state := c.StatePacket(clock);
              var made := FreshBuffers(cfg, endpoint.synNum, Sub(endpoint.synAck, 1));
              State() == c.(synState := state, stateType := Connected, bufs := Some(made)).Emit(state.value)
    {
      var state := StatePacket(clock);
      synState := state;
      out := out + [state.value];
      bufs := new Established(cfg, endpoint.synNum, Sub(endpoint.synAck, 1), clock.wall);
      stateType := Connected;
    }
  }
}
