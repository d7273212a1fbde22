/** Bytes waiting to be packetised: a queue of chunks with an offset into the first one (send_buffer.go). */
module SendBuffers {
  import opened Words
  import opened Collections

  datatype SendState = SendState(size: nat, pending: seq<seq<u8>>, offset: nat) {

    predicate WellPlaced() {
      offset == 0 || (pending != [] && offset < |pending[0]|)
    }

    /** The bytes written and not yet read, in order. */
    function Contents(): seq<u8>
      requires WellPlaced()
    {
      OffsetInside(this);
      Join(pending)[offset..]
    }

    predicate Valid() {
      WellPlaced() && |Contents()| <= size
    }

    function Available(): int {
      size + offset - |Join(pending)|
    }

    predicate IsEmpty() {
      |pending| == 0
    }

    /** Appends as much of `data` as fits. */
    function Write(data: seq<u8>): SendState
      requires Valid()
    {
      this.(pending := pending + [if |data| <= Available() then data else data[..Available()]])
    }

    /** How many bytes one read of at most `cap` bytes takes: never past the first chunk. */
    function Taken(cap: nat): nat
      requires WellPlaced()
    {
      if cap == 0 || pending == [] then 0 else Min(|pending[0]| - offset, cap)
    }

    /** The bytes such a read returns. */
    function Front(cap: nat): seq<u8>
      requires WellPlaced()
    {
      if cap == 0 || pending == [] then [] else pending[0][offset..offset + Taken(cap)]
    }

    function Read(cap: nat): SendState
      requires WellPlaced()
    {
      if cap == 0 || pending == [] then this
      else if offset + Taken(cap) == |pending[0]| then this.(offset := 0, pending := pending[1..])
      else this.(offset := offset + Taken(cap))
    }
  }

  lemma OffsetInside(s: SendState)
    requires s.WellPlaced()
    ensures s.offset <= |Join(s.pending)|
  {
    if s.pending != [] {
      JoinCons(s.pending[0], s.pending[1..]);
      assert s.pending == [s.pending[0]] + s.pending[1..];
    }
  }

  /** A write keeps what was queued and puts the accepted prefix of the data behind it. */
  lemma WriteAppends(s: SendState, data: seq<u8>)
    requires s.Valid()
    ensures var n := Min(|data|, s.Available());
            s.Write(data).Valid() && s.Write(data).Contents() == s.Contents() + data[..n]
  {
    OffsetInside(s);
    var chunk := if |data| <= s.Available() then data else data[..s.Available()];
    JoinSnoc(s.pending, chunk);
    assert data[..|data|] == data;
    if s.pending != [] {
      assert (s.pending + [chunk])[0] == s.pending[0];
    }
    var whole := Join(s.pending);
    assert (whole + chunk)[s.offset..] == whole[s.offset..] + chunk;
  }

  lemma CutFront(head: seq<u8>, rest: seq<u8>, at: nat, n: nat)
    requires at + n <= |head|
    ensures (head + rest)[at..] == head[at..at + n] + (head + rest)[at + n..] && (head + rest)[|head|..] == rest
  {
  }

  /** A read removes exactly the bytes it returns, from the front; it returns none only if the first chunk is empty. */
  lemma ReadTakesFront(s: SendState, cap: nat)
    requires s.Valid()
    ensures |s.Front(cap)| == s.Taken(cap) <= cap
    ensures s.Read(cap).Valid() && s.Contents() == s.Front(cap) + s.Read(cap).Contents()
    ensures s.Front(cap) == [] <==> cap == 0 || s.pending == [] || s.pending[0] == []
  {
    if cap != 0 && s.pending != [] {
      var head, tail := s.pending[0], s.pending[1..];
      var n := s.Taken(cap);
      JoinCons(head, tail);
      assert s.pending == [head] + tail;
      CutFront(head, Join(tail), s.offset, n);
    }
  }

  // ---------------------------------------------------------------- what is held is the writers'

  /** What is left of each chunk. */
  function Unread(s: SendState): seq<seq<u8>>
    requires s.WellPlaced()
  {
    if s.pending == [] then [] else [s.pending[0][s.offset..]] + s.pending[1..]
  }

  lemma ContentsAreUnread(s: SendState)
    requires s.WellPlaced()
    ensures s.Contents() == Join(Unread(s))
  {
    if s.pending != [] {
      var head, tail := s.pending[0], s.pending[1..];
      assert s.pending == [head] + tail;
      JoinCons(head, tail);
      JoinCons(head[s.offset..], tail);
      assert (head + Join(tail))[s.offset..] == head[s.offset..] + Join(tail);
    }
  }

  /**
   * Whatever else the chunks hold later: what waits is what it was if and only if every byte not yet read is. So it
   * depends on every one of those bytes that the writers leave them alone.
   */
  lemma ContentsKeptIff(s: SendState, t: SendState)
    requires s.WellPlaced() && t.WellPlaced() && t.offset == s.offset && SameLengths(s.pending, t.pending)
    ensures t.Contents() == s.Contents() <==> Unread(t) == Unread(s)
  {
    ContentsAreUnread(s);
    ContentsAreUnread(t);
    if t.Contents() == s.Contents() {
      JoinIsInjective(Unread(s), Unread(t));
    }
  }

  /** Part of an array, as a writer hands it over. */
  datatype Slice = Slice(mem: array<u8>, start: nat, end: nat) {
    predicate InBounds() {
      start <= end <= mem.Length
    }

    function Size(): nat {
      if InBounds() then end - start else 0
    }

    /** What the array holds there now. */
    function Bytes(): (b: seq<u8>)
      reads mem
      ensures |b| == Size()
    {
      if InBounds() then mem[start..end] else []
    }

    function Front(n: nat): Slice {
      Slice(mem, start, start + n)
    }

    function Rest(n: nat): Slice {
      Slice(mem, start + n, end)
    }
  }

  /** The slices are whole, of this memory, and as long as what was given. */
  ghost predicate Within(slices: seq<Slice>, given: seq<seq<u8>>, memory: set<array<u8>>) {
    && |slices| == |given|
    && forall i :: 0 <= i < |slices| ==>
         slices[i].mem in memory && slices[i].InBounds() && slices[i].Size() == |given[i]|
  }

  /** The slices still hold what was given. */
  ghost predicate Holds(slices: seq<Slice>, given: seq<seq<u8>>, memory: set<array<u8>>)
    requires Within(slices, given, memory)
    reads memory
  {
    forall i :: 0 <= i < |slices| ==> slices[i].Bytes() == given[i]
  }

  /** What the slices hold now. */
  ghost function HeldBy(slices: seq<Slice>, memory: set<array<u8>>): (held: seq<seq<u8>>)
    requires forall i :: 0 <= i < |slices| ==> slices[i].mem in memory
    reads memory
    ensures |held| == |slices| && forall i :: 0 <= i < |held| ==> held[i] == slices[i].Bytes()
  {
    if slices == [] then [] else HeldBy(slices[..|slices| - 1], memory) + [slices[|slices| - 1].Bytes()]
  }

  lemma OneMore(slices: seq<Slice>, given: seq<seq<u8>>, memory: set<array<u8>>, last: Slice)
    requires Within(slices, given, memory) && last.InBounds()
    ensures Within(slices + [last], given + [last.Bytes()], memory + {last.mem})
    ensures Holds(slices, given, memory) ==> Holds(slices + [last], given + [last.Bytes()], memory + {last.mem})
  {
  }

  lemma OneLess(slices: seq<Slice>, given: seq<seq<u8>>, memory: set<array<u8>>)
    requires slices != [] && Within(slices, given, memory)
    ensures Within(slices[1..], given[1..], memory)
    ensures Holds(slices, given, memory) ==> Holds(slices[1..], given[1..], memory)
  {
  }

  /** Copies n bytes of the slice, from the given place on, to the front of the array. */
  method CopyOut(data: Slice, from: nat, n: nat, buf: array<u8>)
    requires from + n <= data.Size() && n <= buf.Length && buf != data.mem
    modifies buf
    ensures buf[..n] == data.Bytes()[from..from + n]
    ensures forall i :: n <= i < buf.Length ==> buf[i] == old(buf[i])
  {
    if n > 0 {
      forall i | 0 <= i < n {
        buf[i] := data.mem[data.start + from + i];
      }
      assert data.Bytes() == old(data.Bytes());
      assert forall i :: 0 <= i < n ==> buf[i] == data.Bytes()[from + i];
    }
  }

  lemma FrontHolds(data: Slice, n: nat)
    requires data.InBounds() && n <= data.Size()
    ensures data.Front(n).Bytes() == data.Bytes()[..n] && data.Rest(n).Bytes() == data.Bytes()[n..]
  {
    assert forall i :: 0 <= i < n ==> data.Front(n).Bytes()[i] == data.mem[data.start + i] == data.Bytes()[..n][i];
  }

  /** A write adds the front of the data that fits as one more chunk. */
  lemma FrontFits(s: SendState, data: seq<u8>)
    requires s.Valid()
    ensures s.Available() >= 0
    ensures var n := Min(|data|, s.Available());
            && s.Write(data) == s.(pending := s.pending + [data[..n]]) && s.Write(data).Valid()
            && s.Write(data).Contents() == s.Contents() + data[..n]
  {
    OffsetInside(s);
    WriteAppends(s, data);
    assert data[..|data|] == data;
  }

  /** The chunks are slices of the writers' memory; nothing is copied before it is read. */
  class SendBuffer {
    var pending: seq<Slice>
    var offset: nat
    const size: nat
    /** What the chunks held when they were written. */
    ghost var given: seq<seq<u8>>
    /** The arrays the chunks are part of, and perhaps others that earlier chunks were. */
    ghost var memory: set<array<u8>>

    /** The buffer as it was given. */
    ghost function State(): SendState
      reads this
    {
      SendState(size, given, offset)
    }

    ghost predicate Sound()
      reads this
    {
      Within(pending, given, memory)
    }

    /** The writers have left alone what they have handed over. */
    ghost predicate Kept()
      reads this, memory
      requires Sound()
    {
      Holds(pending, given, memory)
    }

    /** The buffer as the memory has it now. */
    ghost function Seen(): (s: SendState)
      requires Sound()
      reads this, memory
      ensures s.size == size && s.offset == offset && SameLengths(given, s.pending)
      ensures Kept() ==> s == State()
    {
      SendState(size, HeldBy(pending, memory), offset)
    }

    /** What is given is what the memory holds now. */
    ghost method Look()
      requires Sound()
      modifies this`given
      ensures Sound() && Kept() && State() == old(Seen())
    {
      given := HeldBy(pending, memory);
    }

    constructor (size: nat)
      ensures State() == SendState(size, [], 0) && State().Valid() && Sound() && Kept()
    {
      this.size, pending, offset, given, memory := size, [], 0, [], {};
    }

    method Available() returns (n: int)
      requires Sound()
      ensures n == State().Available()
    {
      var used := 0;
      for i := 0 to |pending|
        invariant used == |Join(given[..i])|
      {
        assert given[..i + 1][..i] == given[..i];
        used := used + pending[i].Size();
      }
      assert given[..|pending|] == given;
      n := size + offset - used;
    }

    predicate IsEmpty()
      reads this
    {
      |pending| == 0
    }

    /** Keeps the slice itself, or the front of it that fits. */
    method Write(data: Slice) returns (n: nat)
      requires Sound() && State().Valid() && data.InBounds()
      modifies this
      ensures Sound() && (old(Kept()) ==> Kept()) && memory == old(memory) + {data.mem}
      ensures n == Min(data.Size(), old(State().Available()))
      ensures pending == old(pending) + [data.Front(n)] && offset == old(offset)
      ensures State() == old(State()).Write(data.Bytes())
      ensures State().Valid() && State().Contents() == old(State().Contents()) + data.Bytes()[..n]
    {
      FrontFits(State(), data.Bytes());
      var available := Available();
      n := Min(data.Size(), available);
      FrontHolds(data, n);
      OneMore(pending, given, memory, data.Front(n));
      given := given + [data.Front(n).Bytes()];
      pending, memory := pending + [data.Front(n)], memory + {data.mem};
    }

    /** What the memory holds now in the place of the bytes that a read of at most `cap` bytes takes. */
    ghost function Next(cap: nat): (next: seq<u8>)
      requires Sound() && State().WellPlaced()
      reads this, memory
      ensures |next| == State().Taken(cap)
      ensures Kept() ==> next == State().Front(cap)
    {
      if cap == 0 || pending == [] then [] else pending[0].Bytes()[offset..offset + State().Taken(cap)]
    }

    /**
     * Fills the front of `buf` with what the memory of the first chunk holds now; the count says how far. If its writer
     * has left it alone, these are the bytes that were given.
     */
    method Read(buf: array<u8>) returns (n: nat)
      requires Sound() && State().Valid() && buf !in memory
      modifies this, buf
      ensures Sound() && (old(Kept()) ==> Kept()) && memory == old(memory)
      ensures n == old(State()).Taken(buf.Length) && State() == old(State()).Read(buf.Length) && State().Valid()
      ensures buf[..n] == old(Next(buf.Length))
      ensures old(Kept()) ==> old(State().Contents()) == buf[..n] + State().Contents()
      ensures forall i :: n <= i < buf.Length ==> buf[i] == old(buf[i])
    {
      ReadTakesFront(State(), buf.Length);
      if buf.Length == 0 {
        return 0;
      }
      if |pending| == 0 {
        return 0;
      }
      n := ReadFirst(buf);
    }

    method ReadFirst(buf: array<u8>) returns (n: nat)
      requires Sound() && State().WellPlaced() && buf !in memory && pending != [] && buf.Length > 0
      modifies this, buf
      ensures Sound() && (old(Kept()) ==> Kept()) && memory == old(memory)
      ensures n == old(State()).Taken(buf.Length) && State() == old(State()).Read(buf.Length)
      ensures buf[..n] == old(Next(buf.Length))
      ensures forall i :: n <= i < buf.Length ==> buf[i] == old(buf[i])
    {
      n := Min(pending[0].Size() - offset, buf.Length);
      CopyOut(pending[0], offset, n, buf);
      Drop(n);
    }

    /** Moves past n bytes of the first chunk. */
    method Drop(n: nat)
      requires Sound() && pending != [] && offset + n <= pending[0].Size()
      modifies this
      ensures Sound() && (old(Kept()) ==> Kept()) && memory == old(memory)
      ensures var s := old(State());
              State() == if s.offset + n == |s.pending[0]| then s.(offset := 0, pending := s.pending[1..])
                         else s.(offset := s.offset + n)
    {
      OneLess(pending, given, memory);
      if offset + n == pending[0].Size() {
        offset := 0;
        pending, given := pending[1..], given[1..];
      } else {
        offset := offset + n;
      }
    }
  }

  /** A writer that reuses its array after its write was taken: the byte read is the new one. */
  method ReuseSpoils(accepted: u8, later: u8) returns (got: u8)
    ensures got == later
  {
    var send := new SendBuffer(1);
    var mem := new u8[1](_ => accepted);
    var n := send.Write(Slice(mem, 0, 1));
    assert send.State().Contents() == [accepted];
    mem[0] := later;
    var buf := new u8[1](_ => 0);
    var m := send.Read(buf);
    got := buf[..m][0];
  }
}
