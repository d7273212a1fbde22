/** How much is sent at once, and how much is taken from the queue: exactly what the windows and the buffer allow. */
module Cuts {
  import opened Words
  import opened Collections
  import opened SendBuffers
  import opened Sending
  import opened Connections
  import opened Invariants
  import opened Writers

  // ---------------------------------------------------------------- cutting payloads

  /** The bytes in front of the first chunk that is empty. */
  function FirstRun(chunks: seq<seq<u8>>): nat {
    if chunks == [] || chunks[0] == [] then 0 else |chunks[0]| + FirstRun(chunks[1..])
  }

  lemma ReadShortensRun(s: SendState, cap: nat)
    requires s.Valid() && s.Front(cap) != []
    ensures s.Read(cap).Valid() && FirstRun(Unread(s)) == |s.Front(cap)| + FirstRun(Unread(s.Read(cap)))
  {
    ReadTakesFront(s, cap);
    var head, tail, n := s.pending[0], s.pending[1..], s.Taken(cap);
    assert Unread(s)[1..] == tail;
    if s.offset + n == |head| {
      if tail != [] {
        assert tail[0][0..] == tail[0] && [tail[0]] + tail[1..] == tail;
      }
    } else {
      assert Unread(s.Read(cap))[1..] == tail;
    }
  }

  lemma NoFrontNoRun(s: SendState, cap: nat)
    requires s.Valid() && cap > 0 && s.Front(cap) == []
    ensures FirstRun(Unread(s)) == 0
  {
    ReadTakesFront(s, cap);
  }

  lemma {:induction false} FirstRunIsWithin(s: SendState)
    requires s.WellPlaced()
    ensures FirstRun(Unread(s)) <= |s.Contents()|
  {
    ContentsAreUnread(s);
    RunIsWithin(Unread(s));
  }

  lemma {:induction false} RunIsWithin(chunks: seq<seq<u8>>)
    ensures FirstRun(chunks) <= |Join(chunks)|
    decreases |chunks|
  {
    if chunks != [] {
      RunIsWithin(chunks[1..]);
      JoinCons(chunks[0], chunks[1..]);
      assert chunks == [chunks[0]] + chunks[1..];
    }
  }

  /** As many bytes are cut as the window allows and as there are in front of the first empty chunk. */
  predicate TakesAll(payloads: seq<seq<u8>>, window: nat, run: nat) {
    |Join(payloads)| == Min(window, run)
  }

  lemma ComposeTakesNone(send: SendState, window: nat, maxData: nat)
    requires send.Valid() && maxData > 0 && (window == 0 || send.Front(Min(window, maxData)) == [])
    ensures TakesAll(Compose(send, window, maxData).payloads, window, FirstRun(Unread(send)))
  {
    if window > 0 {
      NoFrontNoRun(send, Min(window, maxData));
    }
  }

  lemma TakesMore(front: seq<u8>, rest: Composed, whole: Composed, window: nat, run: nat, less: nat)
    requires |front| <= window && run == |front| + less && TakesAll(rest.payloads, window - |front|, less)
    requires whole == Composed([front] + rest.payloads, rest.send)
    ensures TakesAll(whole.payloads, window, run)
  {
    JoinCons(front, rest.payloads);
  }

  lemma {:induction false} ComposeTakes(send: SendState, window: nat, maxData: nat)
    requires send.Valid() && maxData > 0
    ensures TakesAll(Compose(send, window, maxData).payloads, window, FirstRun(Unread(send)))
    decreases window
  {
    var cap := Min(window, maxData);
    if window == 0 || send.Front(cap) == [] {
      ComposeTakesNone(send, window, maxData);
    } else {
      var front, read := send.Front(cap), send.Read(cap);
      ComposeStep(send, window, maxData);
      ReadShortensRun(send, cap);
      ComposeTakes(read, window - |front|, maxData);
      TakesMore(front, Compose(read, window - |front|, maxData), Compose(send, window, maxData), window,
        FirstRun(Unread(send)), FirstRun(Unread(read)));
    }
  }

  /** A packet size of 64 leaves no room for bytes. */
  lemma ComposeTakesNothing(send: SendState, window: nat)
    requires send.Valid()
    ensures Compose(send, window, 0).payloads == []
  {
  }

  // ---------------------------------------------------------------- refilling

  /** Writes move up until none waits or the buffer is full. */
  lemma {:induction false} RefillIsMaximal(send: SendState, writes: seq<QueuedWrite>, results: seq<WriteResult>)
    requires send.Valid()
    ensures var r := Refill(send, writes, results); r.writes == [] || r.send.Available() <= 0
    decreases |writes|
  {
    if writes != [] && send.Available() > 0 {
      var w := writes[0];
      if |w.data| <= send.Available() {
        RefillWhole(send, writes, results);
        RefillIsMaximal(send.Write(w.data), writes[1..], results + [Written(w.id, |w.data| + w.written)]);
      } else {
        RefillPart(send, writes, results);
      }
    }
  }

  // ---------------------------------------------------------------- serving the writer

  /** How much of the send buffer goes out: what both windows allow, up to the first empty chunk. */
  function Due(c: Conn): nat
    requires c.bufs.Some? && c.bufs.value.send.WellPlaced()
  {
    var ctrl := c.bufs.value.sent.ctrl;
    if c.MaxData() == 0 || ctrl.maxWindow <= ctrl.window then 0
    else Min(Min(ctrl.maxWindow - ctrl.window, c.peerRecvWindow), FirstRun(Unread(c.bufs.value.send)))
  }

  lemma NextPayloadsAreDue(c: Conn)
    requires c.Valid() && c.bufs.Some?
    ensures var payloads := c.NextPayloads().payloads;
            && Due(c) <= |c.bufs.value.send.Contents()| && Join(payloads) == c.bufs.value.send.Contents()[..Due(c)]
  {
    var send, window := c.bufs.value.send, Min(c.bufs.value.sent.Window(), c.peerRecvWindow);
    ComposeConserves(send, window, c.MaxData());
    FirstRunIsWithin(send);
    if c.MaxData() == 0 {
      ComposeTakesNothing(send, window);
    } else {
      ComposeTakes(send, window, c.MaxData());
    }
  }

  /**
   * Serving the writer sends exactly the front of the send buffer that is due, as consecutive DATA packets, each of
   * which goes out, and nothing else does. Then it fills the buffer from the queue until nothing waits or it is full.
   */
  lemma ProcessWritesSends(c: Conn, clock: Clock)
    requires c.Valid() && c.stateType == Connected && c.HasNumbers()
    ensures var c1 := c.ProcessWrites(clock);
            && c1.bufs.Some? && Due(c) <= |c.bufs.value.send.Contents()|
            && Stream(SentOf(c1.bufs)) == Stream(SentOf(c.bufs)) + c.bufs.value.send.Contents()[..Due(c)]
            && c.out <= c1.out && Mirrors(SentOf(c.bufs), SentOf(c1.bufs), c1.out[|c.out|..])
            && (c1.pendingWrites == [] || c1.bufs.value.send.Available() <= 0)
  {
    var sent := ProcessWritesFlushes(c, clock);
    assert c.ProcessWrites(clock).out[|c.out|..] == sent;
    var cut := c.NextPayloads();
    NextPayloadsAreDue(c);
    ExtendsBytes(SentOf(c.bufs), SentOf(c.ProcessWrites(clock).bufs), cut.payloads);
    RefillIsMaximal(cut.send, c.pendingWrites, c.results);
  }

  // ---------------------------------------------------------------- an empty write

  /** Bytes stand behind an empty chunk. */
  predicate Stalls(chunks: seq<seq<u8>>) {
    exists i, j :: 0 <= i < j < |chunks| && chunks[i] == [] && chunks[j] != []
  }

  lemma {:induction false} EmptyJoin(chunks: seq<seq<u8>>)
    ensures Join(chunks) == [] <==> forall j :: 0 <= j < |chunks| ==> chunks[j] == []
    decreases |chunks|
  {
    if chunks != [] {
      EmptyJoin(chunks[..|chunks| - 1]);
    }
  }

  lemma StallsCons(chunks: seq<seq<u8>>)
    requires chunks != [] && chunks[0] != []
    ensures Stalls(chunks) <==> Stalls(chunks[1..])
  {
    if Stalls(chunks) {
      var i, j :| 0 <= i < j < |chunks| && chunks[i] == [] && chunks[j] != [];
      assert chunks[1..][i - 1] == [] && chunks[1..][j - 1] != [];
    }
    if Stalls(chunks[1..]) {
      var i, j :| 0 <= i < j < |chunks[1..]| && chunks[1..][i] == [] && chunks[1..][j] != [];
      assert chunks[i + 1] == [] && chunks[j + 1] != [];
    }
  }

  /** All that waits could go out at once if and only if no bytes stand behind an empty write. */
  lemma {:induction false} NothingStallsIff(chunks: seq<seq<u8>>)
    ensures FirstRun(chunks) == |Join(chunks)| <==> !Stalls(chunks)
    decreases |chunks|
  {
    if chunks != [] {
      assert chunks == [chunks[0]] + chunks[1..];
      JoinCons(chunks[0], chunks[1..]);
      if chunks[0] == [] {
        EmptyJoin(chunks);
      } else {
        NothingStallsIff(chunks[1..]);
        StallsCons(chunks);
      }
    }
  }

  /** What is left in the send buffer is nothing, or a window is used up, unless an empty write is in the way. */
  lemma WindowsAreUsedIff(c: Conn)
    requires c.Valid() && c.bufs.Some? && c.MaxData() > 0
    requires c.bufs.value.sent.ctrl.window <= c.bufs.value.sent.ctrl.maxWindow
    ensures var ctrl, waiting := c.bufs.value.sent.ctrl, |c.bufs.value.send.Contents()|;
            var room := Min(ctrl.maxWindow - ctrl.window, c.peerRecvWindow);
            Due(c) == Min(room, waiting) <==>
              !Stalls(Unread(c.bufs.value.send)) || room <= FirstRun(Unread(c.bufs.value.send))
  {
    ContentsAreUnread(c.bufs.value.send);
    NothingStallsIff(Unread(c.bufs.value.send));
    RunIsWithin(Unread(c.bufs.value.send));
  }

  /** An input: behind an empty write, nothing goes out, whatever the windows. */
  lemma EmptyWriteStalls(size: nat, data: seq<u8>, window: nat, maxData: nat)
    requires 0 < |data| <= size
    ensures var s := SendState(size, [[], data], 0);
            s.Valid() && s.Contents() == data && Compose(s, window, maxData).payloads == []
  {
    var s := SendState(size, [[], data], 0);
    assert s.pending == [[]] + [data] && [data] == [data] + [];
    JoinCons([], [data]);
    JoinCons(data, []);
    assert [] + data == data && data + [] == data;
    if window > 0 {
      ReadTakesFront(s, Min(window, maxData));
    }
  }
}
