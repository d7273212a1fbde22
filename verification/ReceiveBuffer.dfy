/** Reassembly of numbered payloads into a byte stream (recv_buffer.go). */
module ReceiveBuffers {
  import opened Words
  import opened Collections
  import opened CircularRanges
  import opened Packets

  /** The most bits a selective ack may carry: 63 words, so that its length fits one byte. */
  const MAX_SELECTIVE_ACK_COUNT: nat := 32 * 63

  function Length(data: seq<u8>): nat {
    |data|
  }

  /** `buf` is the readable prefix; `pending` holds payloads that arrived ahead of their turn. */
  datatype RecvState = RecvState(size: nat, init: u16, consumed: u16, buf: seq<u8>, pending: map<u16, seq<u8>>) {

    /** Pending numbers lie strictly beyond the written range. */
    predicate Ahead() {
      forall q :: q in pending ==> Sub(q, init) > consumed
    }

    ghost predicate Valid() {
      && |buf| + MapSum(pending, Length) <= size
      && forall q :: q in pending ==> Sub(q, init) > consumed + 1
    }

    ghost function Available(): int {
      size - |buf| - MapSum(pending, Length)
    }

    function AckNum(): u16 {
      Add(init, consumed)
    }

    /** Whether number `q` has been received: consumed already, or pending. */
    predicate WasWritten(q: u16) {
      q in pending || Contains(init, Add(init, consumed), q)
    }

    /** Moves pending payloads to the buffer while the next number is there. */
    function Drain(): RecvState
      requires Ahead()
      decreases |pending|
    {
      var next := Add(Add(init, 1), consumed);
      if next in pending then
        this.(buf := buf + pending[next], consumed := Wrap16(consumed + 1), pending := pending - {next}).Drain()
      else this
    }

    ghost predicate Accepts(data: seq<u8>, q: u16) {
      !WasWritten(q) && |data| <= Available()
    }

    ghost function Write(data: seq<u8>, q: u16): RecvState
      requires Valid()
    {
      if Accepts(data, q) then this.(pending := pending[q := data]).Drain() else this
    }

    function Read(cap: nat): RecvState {
      this.(buf := buf[Min(cap, |buf|)..])
    }

    /** The bitmap that tells the peer what is pending. */
    function SelectiveAck(): Option<SelectiveAck> {
      if pending == map[] then None else Some(Pack(Scan(pending.Keys, Add(AckNum(), 2), [])))
    }

    /** Payloads received so far are those of `src`, and `out` followed by `buf` is their in-order assembly. */
    predicate Agrees(src: map<u16, seq<u8>>, out: seq<u8>) {
      && (forall q :: q in pending ==> q in src && src[q] == pending[q])
      && Covers(src, init, consumed)
      && out + buf == Assemble(src, init, consumed)
    }
  }

  /** `src` has a payload for each of the n numbers after `init`. */
  predicate Covers(src: map<u16, seq<u8>>, init: u16, n: u16) {
    forall o: u16 :: 1 <= o <= n ==> Add(init, o) in src
  }

  /** The payloads of the n numbers after `init`, concatenated in order. */
  function Assemble(src: map<u16, seq<u8>>, init: u16, n: u16): seq<u8>
    requires Covers(src, init, n)
  {
    if n == 0 then [] else Assemble(src, init, n - 1) + src[Add(init, n)]
  }

  /** Behind the bits `acked`, one bit per number from `at` on, until `rest` is exhausted or the cap is reached. */
  function Scan(rest: set<u16>, at: u16, acked: seq<bool>): seq<bool>
    decreases MAX_SELECTIVE_ACK_COUNT - |acked|
  {
    if rest == {} || |acked| >= MAX_SELECTIVE_ACK_COUNT then acked
    else Scan(rest - {at}, Add(at, 1), acked + [at in rest])
  }

  // ---------------------------------------------------------------- receiver bounds

  lemma WrittenIsWithinReach(r: RecvState, q: u16)
    ensures r.WasWritten(q) <==> q in r.pending || Sub(q, r.init) <= r.consumed
  {
    ContainsIsDistance(r.init, Add(r.init, r.consumed), q);
  }

  /** One turn of the drain loop. */
  function Advance(r: RecvState): RecvState
    requires r.Ahead() && Add(Add(r.init, 1), r.consumed) in r.pending
  {
    var next := Add(Add(r.init, 1), r.consumed);
    r.(buf := r.buf + r.pending[next], consumed := Wrap16(r.consumed + 1), pending := r.pending - {next})
  }

  /**
   * The consumed counter never wraps: at 65535 the written range covers every number, so nothing is pending.
   * A turn of the loop conserves the bytes held and changes nothing about which numbers were received.
   */
  lemma AdvanceConserves(r: RecvState)
    requires r.Ahead() && Add(Add(r.init, 1), r.consumed) in r.pending
    ensures r.consumed < 0xFFFF && Advance(r).consumed == r.consumed + 1
    ensures Advance(r).Ahead() && Advance(r).Available() == r.Available()
    ensures forall q :: Advance(r).WasWritten(q) <==> r.WasWritten(q)
  {
    var next := Add(Add(r.init, 1), r.consumed);
    assert Sub(next, r.init) > r.consumed;
    MapSumRemove(r.pending, Length, next);
    forall q: u16 ensures Advance(r).WasWritten(q) <==> r.WasWritten(q) {
      WrittenIsWithinReach(r, q);
      WrittenIsWithinReach(Advance(r), q);
    }
  }

  lemma {:induction false} DrainConserves(r: RecvState)
    requires r.Ahead() && r.Available() >= 0
    ensures r.Drain().Valid() && r.Drain().Available() == r.Available()
    ensures r.Drain().size == r.size && r.Drain().init == r.init && r.consumed <= r.Drain().consumed
    ensures forall q :: r.Drain().WasWritten(q) <==> r.WasWritten(q)
    decreases |r.pending|
  {
    var next := Add(Add(r.init, 1), r.consumed);
    if next in r.pending {
      AdvanceConserves(r);
      DrainConserves(Advance(r));
    } else {
      assert forall q :: q in r.pending ==> Sub(q, r.init) > r.consumed + 1;
    }
  }

  /** A write keeps the buffer within its size and records exactly the number it accepts. */
  lemma WriteRecords(r: RecvState, data: seq<u8>, q: u16)
    requires r.Valid()
    ensures r.Write(data, q).Valid() && r.Write(data, q).size == r.size && r.Write(data, q).init == r.init
    ensures r.consumed <= r.Write(data, q).consumed
    ensures r.Accepts(data, q) ==> r.Write(data, q).Available() == r.Available() - |data|
    ensures forall x :: r.Write(data, q).WasWritten(x) <==> r.WasWritten(x) || (r.Accepts(data, q) && x == q)
  {
    if r.Accepts(data, q) {
      var r1 := r.(pending := r.pending[q := data]);
      WrittenIsWithinReach(r, q);
      MapSumUpdate(r.pending, Length, q, data);
      DrainConserves(r1);
    }
  }

  // ---------------------------------------------------------------- what the stream is

  /** More payloads in the source change nothing that was assembled. */
  lemma {:induction false} AssembleMonotone(src: map<u16, seq<u8>>, more: map<u16, seq<u8>>, init: u16, n: u16)
    requires Covers(src, init, n) && forall q :: q in src ==> q in more && more[q] == src[q]
    ensures Covers(more, init, n) && Assemble(more, init, n) == Assemble(src, init, n)
  {
    if n > 0 {
      AssembleMonotone(src, more, init, n - 1);
    }
  }

  lemma AdvanceAgrees(r: RecvState, src: map<u16, seq<u8>>, out: seq<u8>)
    requires r.Ahead() && r.Agrees(src, out) && Add(Add(r.init, 1), r.consumed) in r.pending
    ensures Advance(r).Agrees(src, out)
  {
    AdvanceConserves(r);
    var next := Add(Add(r.init, 1), r.consumed);
    assert next == Add(r.init, r.consumed + 1);
    forall o: u16 | 1 <= o <= r.consumed + 1 ensures Add(r.init, o) in src {
      assert o <= r.consumed || Add(r.init, o) == next;
    }
    assert out + (r.buf + r.pending[next]) == (out + r.buf) + r.pending[next];
  }

  lemma {:induction false} DrainAgrees(r: RecvState, src: map<u16, seq<u8>>, out: seq<u8>)
    requires r.Ahead() && r.Agrees(src, out)
    ensures r.Drain().Agrees(src, out)
    decreases |r.pending|
  {
    if Add(Add(r.init, 1), r.consumed) in r.pending {
      AdvanceConserves(r);
      AdvanceAgrees(r, src, out);
      DrainAgrees(Advance(r), src, out);
    }
  }

  /** Writing a payload of the source keeps the assembled stream right, in whatever order payloads come. */
  lemma WriteAgrees(r: RecvState, src: map<u16, seq<u8>>, out: seq<u8>, data: seq<u8>, q: u16)
    requires r.Valid() && r.Agrees(src, out)
    requires r.Accepts(data, q) ==> q in src && src[q] == data
    ensures r.Write(data, q).Agrees(src, out)
  {
    if r.Accepts(data, q) {
      var r1 := r.(pending := r.pending[q := data]);
      WrittenIsWithinReach(r, q);
      assert r1.Agrees(src, out);
      DrainAgrees(r1, src, out);
    }
  }

  lemma ReadAgrees(r: RecvState, src: map<u16, seq<u8>>, out: seq<u8>, cap: nat)
    requires r.Agrees(src, out)
    ensures r.Read(cap).Agrees(src, out + r.buf[..Min(cap, |r.buf|)])
  {
    var n := Min(cap, |r.buf|);
    assert out + r.buf[..n] + r.buf[n..] == out + r.buf;
  }

  lemma AgreesMonotone(r: RecvState, src: map<u16, seq<u8>>, more: map<u16, seq<u8>>, out: seq<u8>)
    requires r.Agrees(src, out) && forall q :: q in src ==> q in more && more[q] == src[q]
    ensures r.Agrees(more, out)
  {
    AssembleMonotone(src, more, r.init, r.consumed);
  }

  // ---------------------------------------------------------------- any sequence of calls

  datatype Call = WriteCall(data: seq<u8>, q: u16) | ReadCall(cap: nat)

  /** A buffer, the first payload accepted for each number, and all bytes read so far. */
  datatype History = History(state: RecvState, accepted: map<u16, seq<u8>>, out: seq<u8>) {
    ghost predicate Consistent() {
      && state.Valid()
      && state.Agrees(accepted, out)
      && forall q: u16 :: q in accepted <==> q != state.init && state.WasWritten(q)
    }
  }

  ghost function After(h: History, c: Call): History
    requires h.state.Valid()
  {
    match c
    case WriteCall(data, q) =>
      History(h.state.Write(data, q), if h.state.Accepts(data, q) then h.accepted[q := data] else h.accepted, h.out)
    case ReadCall(cap) =>
      History(h.state.Read(cap), h.accepted, h.out + h.state.buf[..Min(cap, |h.state.buf|)])
  }

  lemma AfterKeepsConsistent(h: History, c: Call)
    requires h.Consistent()
    ensures After(h, c).Consistent() && After(h, c).state.size == h.state.size && After(h, c).state.init == h.state.init
  {
    match c
    case WriteCall(data, q) =>
      var h1 := After(h, c);
      WriteRecords(h.state, data, q);
      WrittenIsWithinReach(h.state, h.state.init);
      WrittenIsWithinReach(h.state, q);
      AgreesMonotone(h.state, h.accepted, h1.accepted, h.out);
      WriteAgrees(h.state, h1.accepted, h.out, data, q);
    case ReadCall(cap) =>
      ReadAgrees(h.state, h.accepted, h.out, cap);
  }

  function Start(size: nat, init: u16): History {
    History(RecvState(size, init, 0, [], map[]), map[], [])
  }

  lemma StartIsConsistent(size: nat, init: u16)
    ensures Start(size, init).Consistent()
  {
    var r := Start(size, init).state;
    forall q: u16 ensures r.WasWritten(q) <==> q == init {
      WrittenIsWithinReach(r, q);
    }
  }

  /** A fresh buffer after any sequence of calls. */
  ghost function Replay(size: nat, init: u16, calls: seq<Call>): (h: History)
    ensures h.Consistent() && h.state.size == size && h.state.init == init
    decreases |calls|
  {
    if calls == [] then
      StartIsConsistent(size, init);
      Start(size, init)
    else
      var c := calls[|calls| - 1];
      var h := Replay(size, init, calls[..|calls| - 1]);
      AfterKeepsConsistent(h, c);
      After(h, c)
  }

  /** The consumed count is the length of the longest unbroken run of accepted numbers. */
  lemma ConsumedIsLongestRun(h: History)
    requires h.Consistent()
    ensures Covers(h.accepted, h.state.init, h.state.consumed)
    ensures h.state.consumed < 0xFFFF ==> Add(h.state.init, h.state.consumed + 1) !in h.accepted
    ensures forall q :: q in h.state.pending <==> q in h.accepted && Sub(q, h.state.init) > h.state.consumed
  {
    var r := h.state;
    if r.consumed < 0xFFFF {
      WrittenIsWithinReach(r, Add(r.init, r.consumed + 1));
    }
    forall q: u16 ensures q in r.pending <==> q in h.accepted && Sub(q, r.init) > r.consumed {
      WrittenIsWithinReach(r, q);
    }
  }

  lemma NoLongerRun(accepted: map<u16, seq<u8>>, init: u16, m: u16, n: u16)
    requires m < 0xFFFF ==> Add(init, m + 1) !in accepted
    requires Covers(accepted, init, n)
    ensures n <= m
  {
  }

  /** Consistent histories with the same accepted payloads have assembled the same. */
  lemma SameAcceptedSameStream(h1: History, h2: History)
    requires h1.Consistent() && h2.Consistent() && h1.state.init == h2.state.init && h1.accepted == h2.accepted
    ensures h1.out + h1.state.buf == h2.out + h2.state.buf
    ensures h1.state.consumed == h2.state.consumed && h1.state.pending == h2.state.pending
  {
    ConsumedIsLongestRun(h1);
    ConsumedIsLongestRun(h2);
    NoLongerRun(h1.accepted, h1.state.init, h1.state.consumed, h2.state.consumed);
    NoLongerRun(h1.accepted, h1.state.init, h2.state.consumed, h1.state.consumed);
    assert h1.state.pending.Keys == h2.state.pending.Keys;
  }

  /**
   * Reassembly ignores arrival order: after any two sequences of writes and reads that accepted the same
   * payloads, the bytes read plus the bytes readable are the same, and so are the counter and the pending set.
   */
  lemma ArrivalOrderIsIrrelevant(size: nat, init: u16, calls1: seq<Call>, calls2: seq<Call>)
    requires Replay(size, init, calls1).accepted == Replay(size, init, calls2).accepted
    ensures var h1 := Replay(size, init, calls1); var h2 := Replay(size, init, calls2);
            && h1.out + h1.state.buf == h2.out + h2.state.buf
            && h1.state.consumed == h2.state.consumed && h1.state.pending == h2.state.pending
  {
    SameAcceptedSameStream(Replay(size, init, calls1), Replay(size, init, calls2));
  }

  // ---------------------------------------------------------------- selective acks

  /** The bits the scan adds are exact, and it stops early only when nothing is left. */
  ghost predicate ScanExact(rest: set<u16>, at: u16, from: nat, bits: seq<bool>) {
    && from <= |bits| <= MAX_SELECTIVE_ACK_COUNT
    && (forall i :: from <= i < |bits| ==> (bits[i] <==> Add(at, i - from) in rest))
    && (|bits| < MAX_SELECTIVE_ACK_COUNT ==> forall q :: q in rest ==> Sub(q, at) < |bits| - from)
  }

  lemma {:induction false} ScanIsExact(rest: set<u16>, at: u16, acked: seq<bool>)
    requires |acked| <= MAX_SELECTIVE_ACK_COUNT
    ensures acked <= Scan(rest, at, acked) && ScanExact(rest, at, |acked|, Scan(rest, at, acked))
    ensures rest != {} && acked == [] ==> Scan(rest, at, acked) != []
    decreases MAX_SELECTIVE_ACK_COUNT - |acked|
  {
    if rest != {} && |acked| < MAX_SELECTIVE_ACK_COUNT {
      var n := |acked|;
      var rest1, at1, acked1 := rest - {at}, Add(at, 1), acked + [at in rest];
      ScanIsExact(rest1, at1, acked1);
      var bits := Scan(rest, at, acked);
      assert bits[n] == acked1[n];
      forall i | n <= i < |bits| ensures bits[i] <==> Add(at, i - n) in rest {
        if i > n {
          assert bits[i] <==> Add(at1, i - (n + 1)) in rest1;
          assert Add(at1, i - (n + 1)) == Add(at, i - n) != at;
        }
      }
      forall q | q in rest && |bits| < MAX_SELECTIVE_ACK_COUNT ensures Sub(q, at) < |bits| - n {
        if q != at {
          assert Sub(q, at1) < |bits| - (n + 1);
        }
      }
    }
  }

  /**
   * The selective ack says exactly what is pending: bit i is set if and only if the number two past the
   * ack number plus i is pending. It has 1 to 63 words, and unless the cap was hit it misses nothing.
   */
  lemma SelectiveAckIsExact(r: RecvState)
    requires r.pending != map[]
    ensures var s := r.SelectiveAck().value; var bits := s.Acked();
            && WholeWords(s) && 1 <= |s.words| <= 63 && |EncodeSack(s)| <= 252
            && |bits| <= MAX_SELECTIVE_ACK_COUNT
            && (forall i :: 0 <= i < |bits| ==> (bits[i] <==> Add(Add(r.AckNum(), 2), i) in r.pending))
            && (|bits| < MAX_SELECTIVE_ACK_COUNT ==> forall q :: q in r.pending ==> Sub(q, Add(r.AckNum(), 2)) < |bits|)
  {
    var at := Add(r.AckNum(), 2);
    var scan := Scan(r.pending.Keys, at, []);
    ScanIsExact(r.pending.Keys, at, []);
    PackKeepsBits(scan);
    var bits := Pack(scan).Acked();
    forall i | 0 <= i < |bits| ensures bits[i] <==> Add(at, i) in r.pending {
      if i < |scan| {
        assert scan[i] <==> Add(at, i - 0) in r.pending.Keys;
      } else {
        assert Sub(Add(at, i), at) == i;
      }
    }
  }

  // ---------------------------------------------------------------- the object

  /** Draining from r leads to the goal. */
  ghost predicate Draining(goal: RecvState, r: RecvState) {
    r.Ahead() && r.Available() >= 0 && r.Drain() == goal
  }

  lemma DrainingOn(goal: RecvState, r: RecvState)
    requires Draining(goal, r) && Add(Add(r.init, 1), r.consumed) in r.pending
    ensures Draining(goal, Advance(r))
    ensures Add(Add(r.init, 1), Advance(r).consumed) == Add(Add(Add(r.init, 1), r.consumed), 1)
    ensures |Advance(r).pending| < |r.pending|
  {
    AdvanceConserves(r);
  }

  class ReceiveBuffer {
    const buf: array<u8>
    const init: u16
    var offset: nat
    var consumed: u16
    var pending: map<u16, seq<u8>>

    ghost predicate Valid()
      reads this, buf
    {
      offset <= buf.Length && State().Valid()
    }

    ghost function State(): RecvState
      reads this, buf
    {
      RecvState(buf.Length, init, consumed, if offset <= buf.Length then buf[..offset] else [], pending)
    }

    constructor (size: nat, init: u16)
      ensures Valid() && fresh(buf) && State() == RecvState(size, init, 0, [], map[])
    {
      buf := new u8[size](_ => 0);
      this.init, offset, consumed, pending := init, 0, 0, map[];
    }

    /** Sums the pending payloads, in any order. */
    method Available() returns (n: int)
      requires offset <= buf.Length
      ensures n == State().Available()
    {
      n := buf.Length - offset;
      var rest := pending;
      while rest != map[]
        invariant n == buf.Length - offset - (MapSum(pending, Length) - MapSum(rest, Length))
        decreases |rest|
      {
        var q :| q in rest;
        MapSumRemove(rest, Length, q);
        n := n - |rest[q]|;
        rest := rest - {q};
      }
    }

    predicate WasWritten(q: u16)
      reads this
    {
      q in pending || Contains(init, Add(init, consumed), q)
    }

    function AckNum(): u16
      reads this
    {
      Add(init, consumed)
    }

    predicate IsEmpty()
      reads this
    {
      offset == 0 && pending == map[]
    }

    /** Copies out the front of the buffer and moves the remaining bytes down. */
    method Read(out: array<u8>) returns (n: nat)
      requires Valid() && out != buf
      modifies this`offset, buf, out
      ensures Valid() && n == Min(out.Length, |old(State()).buf|)
      ensures State() == old(State()).Read(out.Length) && out[..n] == old(State()).buf[..n]
      ensures forall i :: n <= i < out.Length ==> out[i] == old(out[i])
    {
      if out.Length == 0 {
        return 0;
      }
      n := Min(out.Length, offset);
      forall i | 0 <= i < n {
        out[i] := buf[i];
      }
      var remaining := offset - n;
      forall i | 0 <= i < remaining {
        buf[i] := buf[n + i];
      }
      offset := remaining;
      assert buf[..offset] == old(buf[..offset])[n..];
    }

    /** Copies the next pending payload behind the readable bytes; it always fits. */
    method TakeNext(next: u16)
      requires offset <= buf.Length && State().Ahead() && State().Available() >= 0
      requires next == Add(Add(init, 1), consumed) && next in pending
      modifies this`offset, this`consumed, this`pending, buf
      ensures offset <= buf.Length && State() == Advance(old(State()))
    {
      var data := pending[next];
      MapSumAtLeast(pending, Length, next);
      var end := offset + |data|;
      forall i | 0 <= i < |data| {
        buf[offset + i] := data[i];
      }
      offset := end;
      consumed := Wrap16(consumed + 1);
      pending := pending - {next};
      assert buf[..offset] == old(buf[..offset]) + data;
    }

    /** The loop that moves pending payloads down while the next number is there. */
    method DrainPending()
      requires offset <= buf.Length && State().Ahead() && State().Available() >= 0
      modifies this`offset, this`consumed, this`pending, buf
      ensures offset <= buf.Length && State() == old(State()).Drain()
    {
      ghost var goal := State().Drain();
      var next := Add(Add(init, 1), consumed);
      while next in pending
        invariant offset <= buf.Length && next == Add(Add(init, 1), consumed) && Draining(goal, State())
        decreases |pending|
      {
        DrainingOn(goal, State());
        TakeNext(next);
        next := Add(next, 1);
      }
    }

    method Write(data: seq<u8>, q: u16) returns (ok: bool)
      requires Valid()
      modifies this`offset, this`consumed, this`pending, buf
      ensures Valid() && State() == old(State()).Write(data, q)
      ensures ok <==> old(State()).WasWritten(q) || |data| <= old(State()).Available()
    {
      if WasWritten(q) {
        return true;
      }
      var available := Available();
      if |data| > available {
        return false;
      }
      WriteRecords(State(), data, q);
      WrittenIsWithinReach(State(), q);
      MapSumUpdate(pending, Length, q, data);
      pending := pending[q := data];
      assert State() == old(State()).(pending := pending);
      DrainPending();
      ok := true;
    }

    method SelectiveAck() returns (sack: Option<SelectiveAck>)
      ensures sack == State().SelectiveAck()
    {
      if pending == map[] {
        return None;
      }
      var lastAck := Add(AckNum(), 2);
      var acked: seq<bool> := [];
      var rest := pending.Keys;
      while rest != {} && |acked| < MAX_SELECTIVE_ACK_COUNT
        invariant Scan(rest, lastAck, acked) == Scan(pending.Keys, Add(AckNum(), 2), [])
        decreases MAX_SELECTIVE_ACK_COUNT - |acked|
      {
        if lastAck in rest {
          acked := acked + [true];
          rest := rest - {lastAck};
        } else {
          acked := acked + [false];
          assert rest - {lastAck} == rest;
        }
        lastAck := Add(lastAck, 1);
      }
      var s := NewSelectiveAck(acked);
      sack := Some(s);
    }
  }
}
