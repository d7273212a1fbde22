/** The sender's record of its packets: numbering, acks and loss detection (sent_packet.go). */
module Sending {
  import opened Words
  import opened Collections
  import opened CircularRanges
  import opened Packets
  import opened Congestion

  /** A packet counts as lost once this many packets after it are acked. */
  const LOSS_THRESHOLD: nat := 3

  /**
   * Up to this many packets, no selective ack can walk past the last one and reach the first (see `WalksAreSafeIff`).
   */
  const MAX_PACKETS: nat := 0xFFFD

  /** What a handler reads around it: the time it is given, the time it reads, that in microseconds, a random number. */
  datatype Clock = Clock(now: int, wall: int, micros: int, random: u16)

  datatype AckError = InvalidAckNum | NoneAckNum

  datatype SentPacket = SentPacket(
    seqNum: u16,
    ptype: PacketType,
    data: seq<u8>,
    transmission: int,
    retransmission: int,
    acks: seq<int>)
  {
    predicate Acked() {
      acks != []
    }

    function Rtt(now: int): int {
      now - if retransmission == transmission then transmission else retransmission
    }
  }

  predicate Matches(r: Record, p: SentPacket) {
    r.acked == p.Acked() && r.size == |p.data|
  }

  /** Position of a number in the list of packets, the first of which is numbered `init + 1`. */
  function Index(init: u16, q: u16): nat {
    if q > init then q - init - 1 else 0xFFFF - init + q
  }

  /** The number of the packet at position k. */
  function Number(init: u16, k: nat): u16
    requires k < 0xFFFF
  {
    Add(init, k + 1)
  }

  /** How many of the packets are acked. */
  function CountAcked(ps: seq<SentPacket>): nat {
    if ps == [] then 0 else (if ps[0].Acked() then 1 else 0) + CountAcked(ps[1..])
  }

  /** The first number of a set in ascending order. */
  ghost function Smallest(s: set<u16>): (m: u16)
    requires s != {}
    ensures m in s && forall x :: x in s ==> m <= x
  {
    SmallestExists(s);
    var m: u16 :| m in s && forall x :: x in s ==> m <= x;
    m
  }

  lemma {:induction false} SmallestExists(s: set<u16>)
    requires s != {}
    ensures exists m: u16 :: m in s && forall x :: x in s ==> m <= x
    decreases |s|
  {
    var k := Pick(s);
    var rest := s - {k};
    if rest == {} {
      assert forall x :: x in s ==> x == k || x in rest;
      assert k in s && forall x :: x in s ==> k <= x;
    } else {
      SmallestExists(rest);
      var m: u16 :| m in rest && forall x :: x in rest ==> m <= x;
      var least := if k < m then k else m;
      assert forall x :: x in s ==> x == k || x in rest;
      assert least in s && forall x :: x in s ==> least <= x;
    }
  }

  /** The definition of lost: unacked, with at least three acked packets after it. */
  predicate LostAt(ps: seq<SentPacket>, k: nat)
    requires k < |ps|
  {
    !ps[k].Acked() && CountAcked(ps[k + 1..]) >= LOSS_THRESHOLD
  }

  /** The numbers of the lost packets, last one first. */
  function Detect(ps: seq<SentPacket>): seq<u16> {
    if ps == [] then []
    else Detect(ps[1..]) + if LostAt(ps, 0) then [ps[0].seqNum] else []
  }

  /** The length of the acked prefix. */
  function Gap(ps: seq<SentPacket>): (n: nat)
    ensures n <= |ps| && (forall k :: 0 <= k < n ==> ps[k].Acked()) && (n < |ps| ==> !ps[n].Acked())
  {
    if ps == [] || !ps[0].Acked() then 0 else 1 + Gap(ps[1..])
  }

  /** The numbers a selective ack acks: those of its set bits, until the walk leaves the range of sent numbers. */
  function Targets(init: u16, end: u16, q: u16, bits: seq<bool>): seq<u16>
    decreases |bits|
  {
    if bits == [] || !Contains(init, end, q) then []
    else (if bits[0] then [q] else []) + Targets(init, end, Add(q, 1), bits[1..])
  }

  /** The number of the packet after the first n. */
  function NumberAfter(init: u16, n: nat): u16 {
    Wrap16(init + Wrap16(n) + 1)
  }

  /** The number of the last of the first n packets, the one before the next. */
  function LastNumber(init: u16, n: nat): u16 {
    Wrap16(NumberAfter(init, n) - 1)
  }

  datatype SentState = SentState(init: u16, packets: seq<SentPacket>, lost: set<u16>, ctrl: Ctrl) {

    function NextSeqNum(): u16 {
      NumberAfter(init, |packets|)
    }

    predicate InRange(q: u16) {
      Contains(init, LastNumber(init, |packets|), q)
    }

    function Window(): u32 {
      ctrl.BytesAvailable()
    }

    /** The number of the last packet of the acked prefix. */
    function LastAckNum(): Option<u16> {
      if Gap(packets) == 0 then None else Some(packets[Gap(packets) - 1].seqNum)
    }

    function FirstUnacked(): Option<u16> {
      if |packets| == 0 then None
      else
        var last := LastAckNum();
        if last.None? then Some(Add(init, 1))
        else if packets[|packets| - 1].seqNum == last.value then None
        else Some(Add(last.value, 1))
    }

    /** Packets are numbered consecutively, and there are few enough of them. */
    predicate Numbered() {
      && |packets| <= MAX_PACKETS
      && forall k :: 0 <= k < |packets| ==> packets[k].seqNum == Number(init, k)
    }

    /** The controller has a record of exactly the packets sent, with their sizes and acks. */
    predicate Tracked() {
      && (forall q :: q in ctrl.tx <==> Index(init, q) < |packets|)
      && (forall q :: q in ctrl.tx ==> Matches(ctrl.tx[q], packets[Index(init, q)]))
    }

    /** Every number in the lost index is that of a lost packet. */
    predicate LostSound() {
      forall q :: q in lost ==> Index(init, q) < |packets| && LostAt(packets, Index(init, q))
    }

    /** The lost index holds exactly the lost packets. */
    predicate LostExact() {
      forall q: u16 :: q in lost <==> Index(init, q) < |packets| && LostAt(packets, Index(init, q))
    }

    ghost predicate Core() {
      Numbered() && Tracked() && ctrl.Valid() && LostSound()
    }

    ghost predicate Valid() {
      Core() && LostExact()
    }

    // ------------------------------------------------------------ acks

    /** Acks the packet numbered q; a second ack changes nothing. */
    function AckOne(q: u16, delay: int, clock: Clock): (s: SentState)
      requires Index(init, q) < |packets|
      ensures s.init == init && |s.packets| == |packets|
    {
      var k := Index(init, q);
      var p := packets[k];
      var o := ctrl.OnAck(p.seqNum, Ack(delay, p.Rtt(clock.now), clock.now, clock.wall));
      if o.error.Some? || p.Acked() then this.(ctrl := o.ctrl)
      else this.(ctrl := o.ctrl, packets := packets[k := p.(acks := [clock.now])], lost := lost - {p.seqNum})
    }

    function AckAll(qs: seq<u16>, delay: int, clock: Clock): (s: SentState)
      requires forall q :: q in qs ==> Index(init, q) < |packets|
      ensures s.init == init && |s.packets| == |packets|
      decreases |qs|
    {
      if qs == [] then this else AckOne(qs[0], delay, clock).AckAll(qs[1..], delay, clock)
    }

    function MarkLost(qs: seq<u16>): (s: SentState)
      ensures s.init == init && s.packets == packets
      decreases |qs|
    {
      if qs == [] then this else this.(lost := lost + {qs[0]}, ctrl := ctrl.OnLost(qs[0], true).ctrl).MarkLost(qs[1..])
    }

    /** The numbers an ack names directly: its own, and those of its bitmap. */
    function Named(ackNum: u16, sack: Option<SelectiveAck>): seq<u16> {
      [ackNum] + if sack.None? then []
        else Targets(init, LastNumber(init, |packets|), Add(ackNum, 2), sack.value.Acked())
    }

    /** The numbers of the packets from position lo up to hi. */
    function Between(lo: nat, hi: nat): seq<u16>
      requires lo <= hi <= |packets|
    {
      seq<u16>(hi - lo, (i: int) requires 0 <= i < hi - lo => packets[lo + i].seqNum)
    }

    /** Acks the unacked packets before ackNum, from the first unacked one on, and then looks for lost packets. */
    function SettlePrior(first: u16, ackNum: u16, delay: int, clock: Clock): (s: SentState)
      requires Numbered() && Index(init, first) < |packets| && Index(init, ackNum) < |packets|
      ensures s.init == init
    {
      var lo, hi := Index(init, first), Index(init, ackNum);
      BetweenAreSent(this, lo, Max(lo, hi));
      var s2 := if lo >= hi then this else AckAll(Between(lo, hi), delay, clock);
      s2.MarkLost(Detect(s2.packets[lo..]))
    }

    /** Acks everything up to ackNum and what the bitmap names, and finds what that makes lost. */
    ghost function OnAckNum(ackNum: u16, sack: Option<SelectiveAck>, delay: int, clock: Clock): (SentState,
                            Option<AckError>)
      requires Core() && Index(init, ackNum) < |packets|
    {
      NamedEffect(this, ackNum, sack, delay, clock);
      var s1 := AckAll(Named(ackNum, sack), delay, clock);
      FirstUnackedIsGap(s1);
      var first := s1.FirstUnacked();
      if first.None? then (s1, Some(NoneAckNum)) else (s1.SettlePrior(first.value, ackNum, delay, clock), None)
    }

    ghost function OnAck(ackNum: u16, sack: Option<SelectiveAck>, delay: int, clock: Clock): (SentState,
                         Option<AckError>)
      requires Core()
    {
      if !InRange(ackNum) then (this, Some(InvalidAckNum))
      else if ackNum == init then (this, None)
      else
        InRangeIsSent(this, ackNum);
        OnAckNum(ackNum, sack, delay, clock)
    }

    // ------------------------------------------------------------ transmissions

    /** None of the checks in `OnTransmit` panics. */
    predicate CanTransmit(q: u16, size: u32) {
      && Index(init, q) <= |packets|
      && (Index(init, q) == |packets| ==> size <= Window() && ctrl.OnInitial(q, size).error.None?)
      && (Index(init, q) < |packets| ==> ctrl.OnRetransmission(q).error.None?)
    }

    function OnTransmit(q: u16, ptype: PacketType, data: seq<u8>, now: int): SentState
      requires |data| < 0x1_0000_0000 && CanTransmit(q, |data|)
    {
      var k := Index(init, q);
      if k < |packets| then
        this.(packets := packets[k := packets[k].(retransmission := now)], ctrl := ctrl.OnRetransmission(q).ctrl)
      else
        this.(packets := packets + [SentPacket(q, ptype, data, now, now, [])], ctrl := ctrl.OnInitial(q, |data|).ctrl)
    }
  }

  // ---------------------------------------------------------------- numbering

  /** The index is the forward distance from `init`, less one. */
  lemma IndexIsDistance(init: u16, q: u16)
    ensures Index(init, q) == (if q == init then 0xFFFF else Sub(q, init) - 1)
  {
  }

  lemma IndexOfNumber(init: u16, k: nat)
    requires k < 0xFFFF
    ensures Index(init, Number(init, k)) == k
  {
  }

  lemma NumberOfIndex(init: u16, q: u16)
    requires Index(init, q) < 0xFFFF
    ensures Number(init, Index(init, q)) == q
  {
  }

  /**
   * A fresh number is the next position, exactly while fewer than 65536 packets have been sent; then it aliases the
   * first.
   */
  lemma NextIsFreshIff(init: u16, n: nat)
    requires n <= 0x1_0000
    ensures Index(init, NumberAfter(init, n)) == n <==> n < 0x1_0000
    ensures n == 0x1_0000 ==> Index(init, NumberAfter(init, n)) == 0
  {
  }

  lemma NextNumber(s: SentState)
    requires s.Numbered()
    ensures s.NextSeqNum() == Add(s.init, |s.packets| + 1) && Index(s.init, s.NextSeqNum()) == |s.packets|
    ensures LastNumber(s.init, |s.packets|) == Add(s.init, |s.packets|)
  {
  }

  lemma InRangeIsSent(s: SentState, q: u16)
    requires s.Numbered()
    ensures s.InRange(q) <==> q == s.init || Index(s.init, q) < |s.packets|
  {
    NextNumber(s);
    ContainsIsDistance(s.init, Add(s.init, |s.packets|), q);
  }

  // ---------------------------------------------------------------- the walk over a selective ack

  /** Bit i of a bitmap that starts at offset o names the packet at position o - 1 + i. */
  predicate Bitmap(bits: seq<bool>, o: nat, k: nat) {
    0 <= k + 1 - o < |bits| && bits[k + 1 - o]
  }

  /** With at most 65533 packets, the walk acks exactly the sent packets that the bitmap names. */
  lemma {:induction false} TargetsAreTheBitmap(init: u16, n: nat, q: u16, bits: seq<bool>, t: u16)
    requires n <= MAX_PACKETS && 2 <= Sub(q, init) <= n + 2
    ensures t in Targets(init, Add(init, n), q, bits) <==>
            Index(init, t) < n && Bitmap(bits, Sub(q, init), Index(init, t))
    decreases |bits|
  {
    var end, o, k := Add(init, n), Sub(q, init), Index(init, t);
    ContainsIsDistance(init, end, q);
    assert Sub(end, init) == n;
    if bits != [] && o <= n {
      var rest := bits[1..];
      TargetsAreTheBitmap(init, n, Add(q, 1), rest, t);
      assert t == q <==> k == o - 1 by { IndexIsDistance(init, t); }
      BitmapStep(bits, o, k);
      assert t in Targets(init, end, q, bits) <==> (bits[0] && t == q) || t in Targets(init, end, Add(q, 1), rest);
    }
  }

  lemma BitmapStep(bits: seq<bool>, o: nat, k: nat)
    requires bits != []
    ensures Bitmap(bits, o, k) <==> (bits[0] && k + 1 == o) || Bitmap(bits[1..], o + 1, k)
  {
  }

  /** No selective ack can make the sender index past its list. */
  ghost predicate WalksAreSafe(init: u16, n: u16) {
    forall ackNum: u16, bits: seq<bool>, t: u16 ::
      ackNum != init && Contains(init, Add(init, n), ackNum)
        && t in Targets(init, Add(init, n), Add(ackNum, 2), bits) ==>
        Index(init, t) < n
  }

  /** The walk is safe for every ack exactly up to 65533 packets: one more, and acking the last packet names `init`. */
  lemma WalksAreSafeIff(init: u16, n: u16)
    ensures WalksAreSafe(init, n) <==> n <= MAX_PACKETS
  {
    var end := Add(init, n);
    if n <= MAX_PACKETS {
      forall ackNum: u16, bits: seq<bool>, t: u16 |
        ackNum != init && Contains(init, end, ackNum) && t in Targets(init, end, Add(ackNum, 2), bits)
        ensures Index(init, t) < n
      {
        ContainsIsDistance(init, end, ackNum);
        assert Sub(Add(ackNum, 2), init) == Sub(ackNum, init) + 2;
        TargetsAreTheBitmap(init, n, Add(ackNum, 2), bits, t);
      }
    } else {
      var ackNum := Add(init, 0xFFFE);
      var bits := [true];
      assert bits[1..] == [];
      assert Targets(init, end, init, bits) == [init];
      assert init in Targets(init, end, Add(ackNum, 2), bits) && Index(init, init) >= n;
    }
  }

  /** Position k is that of the ack's own number or of a bit of its bitmap. */
  predicate Names(init: u16, ackNum: u16, sack: Option<SelectiveAck>, k: nat) {
    k == Index(init, ackNum) || (sack.Some? && Bitmap(sack.value.Acked(), Index(init, ackNum) + 3, k))
  }

  lemma NamedAreSent(s: SentState, ackNum: u16, sack: Option<SelectiveAck>)
    requires s.Numbered() && Index(s.init, ackNum) < |s.packets|
    ensures forall t: u16 :: t in s.Named(ackNum, sack) <==>
              Index(s.init, t) < |s.packets| && Names(s.init, ackNum, sack, Index(s.init, t))
  {
    forall t: u16 | Index(s.init, t) == Index(s.init, ackNum) ensures t == ackNum {
      NumberOfIndex(s.init, t);
      NumberOfIndex(s.init, ackNum);
    }
    var n, o := |s.packets|, Sub(Add(ackNum, 2), s.init);
    IndexIsDistance(s.init, ackNum);
    NextNumber(s);
    assert o == Index(s.init, ackNum) + 3;
    if sack.Some? {
      var bits := sack.value.Acked();
      forall t: u16
        ensures t in Targets(s.init, Add(s.init, n), Add(ackNum, 2), bits) <==>
                Index(s.init, t) < n && Bitmap(bits, o, Index(s.init, t))
      {
        TargetsAreTheBitmap(s.init, n, Add(ackNum, 2), bits, t);
      }
    }
  }

  lemma BetweenAreSent(s: SentState, lo: nat, hi: nat)
    requires s.Numbered() && lo <= hi <= |s.packets|
    ensures forall t :: t in s.Between(lo, hi) <==> lo <= Index(s.init, t) < hi
  {
    var qs := s.Between(lo, hi);
    forall t: u16 ensures t in qs <==> lo <= Index(s.init, t) < hi {
      if t in qs {
        var i :| 0 <= i < |qs| && qs[i] == t;
        IndexOfNumber(s.init, lo + i);
      }
      if lo <= Index(s.init, t) < hi {
        NumberOfIndex(s.init, t);
        assert qs[Index(s.init, t) - lo] == t;
      }
    }
  }

  lemma FirstUnackedIsGap(s: SentState)
    requires s.Numbered()
    ensures s.FirstUnacked().None? <==> Gap(s.packets) == |s.packets|
    ensures s.FirstUnacked().Some? ==> Index(s.init, s.FirstUnacked().value) == Gap(s.packets) < |s.packets|
    ensures s.LastAckNum().Some? ==> Index(s.init, s.LastAckNum().value) == Gap(s.packets) - 1
  {
    var g := Gap(s.packets);
    if |s.packets| > 0 {
      IndexOfNumber(s.init, g);
      if g > 0 {
        IndexOfNumber(s.init, g - 1);
      }
    }
  }

  // ---------------------------------------------------------------- counting

  lemma {:induction false} CountMonotone(a: seq<SentPacket>, b: seq<SentPacket>)
    requires |a| == |b| && forall k :: 0 <= k < |a| && a[k].Acked() ==> b[k].Acked()
    ensures CountAcked(a) <= CountAcked(b)
  {
    if a != [] {
      CountMonotone(a[1..], b[1..]);
    }
  }

  /** Acks only add to what makes a packet lost. */
  lemma LostMonotone(a: seq<SentPacket>, b: seq<SentPacket>, k: nat)
    requires |a| == |b| && k < |a| && (forall i :: 0 <= i < |a| && a[i].Acked() ==> b[i].Acked())
    requires LostAt(a, k) && !b[k].Acked()
    ensures LostAt(b, k)
  {
    CountMonotone(a[k + 1..], b[k + 1..]);
  }

  lemma LostAtSuffix(ps: seq<SentPacket>, lo: nat, k: nat)
    requires lo <= k < |ps|
    ensures LostAt(ps[lo..], k - lo) <==> LostAt(ps, k)
  {
    assert ps[lo..][k - lo + 1..] == ps[k + 1..];
  }

  /** The detection loop finds exactly the lost packets. */
  lemma {:induction false} DetectIsExact(ps: seq<SentPacket>, q: u16)
    ensures q in Detect(ps) <==> exists k :: 0 <= k < |ps| && ps[k].seqNum == q && LostAt(ps, k)
  {
    if ps != [] {
      var tail := ps[1..];
      DetectIsExact(tail, q);
      forall k | 0 <= k < |tail| ensures LostAt(tail, k) <==> LostAt(ps, k + 1) {
        LostAtSuffix(ps, 1, k + 1);
      }
      if q in Detect(tail) {
        var k :| 0 <= k < |tail| && tail[k].seqNum == q && LostAt(tail, k);
        assert ps[k + 1].seqNum == q && LostAt(ps, k + 1);
      }
      if exists k :: 0 <= k < |ps| && ps[k].seqNum == q && LostAt(ps, k) {
        var k :| 0 <= k < |ps| && ps[k].seqNum == q && LostAt(ps, k);
        if k > 0 {
          assert tail[k - 1].seqNum == q && LostAt(tail, k - 1);
        }
      }
    }
  }

  lemma {:induction false} CountAppendUnacked(ps: seq<SentPacket>, p: SentPacket)
    requires !p.Acked()
    ensures CountAcked(ps + [p]) == CountAcked(ps)
  {
    if ps != [] {
      CountAppendUnacked(ps[1..], p);
      assert (ps + [p])[1..] == ps[1..] + [p];
    }
  }

  // ---------------------------------------------------------------- the effect of acks

  /** Two lists that differ at most in their acks. */
  predicate SamePackets(a: seq<SentPacket>, b: seq<SentPacket>) {
    |a| == |b| && forall k :: 0 <= k < |a| ==> b[k] == a[k].(acks := b[k].acks)
  }

  /** The list after has the acks of the list before, and those of the positions whose numbers are in `qs`. */
  predicate AckedExactly(init: u16, a: seq<SentPacket>, b: seq<SentPacket>, qs: seq<u16>)
    requires |a| == |b| <= MAX_PACKETS
  {
    forall k :: 0 <= k < |a| ==> (b[k].Acked() <==> a[k].Acked() || Number(init, k) in qs)
  }

  /** State t is s with the packet numbered q acked. */
  ghost predicate OneAcked(s: SentState, t: SentState, q: u16)
    requires Index(s.init, q) < |s.packets| && q in s.ctrl.tx
  {
    var k := Index(s.init, q);
    && t.init == s.init
    && |t.packets| == |s.packets| && t.packets[k].Acked()
    && t.packets == s.packets[k := s.packets[k].(acks := t.packets[k].acks)]
    && t.lost == (if s.packets[k].Acked() then s.lost else s.lost - {q})
    && t.ctrl.Valid() && t.ctrl.tx == s.ctrl.tx[q := s.ctrl.tx[q].(acked := true)]
  }

  lemma AckOneIsOneAcked(s: SentState, q: u16, delay: int, clock: Clock)
    requires s.Core() && Index(s.init, q) < |s.packets|
    ensures OneAcked(s, s.AckOne(q, delay, clock), q)
  {
    var p := s.packets[Index(s.init, q)];
    NumberOfIndex(s.init, q);
    AckKeeps(s.ctrl, q, Ack(delay, p.Rtt(clock.now), clock.now, clock.wall));
  }

  lemma OneAckedKeepsLost(s: SentState, t: SentState, q: u16)
    requires s.Core() && Index(s.init, q) < |s.packets| && OneAcked(s, t, q)
    ensures t.LostSound()
  {
    forall x | x in t.lost ensures Index(s.init, x) < |t.packets| && LostAt(t.packets, Index(s.init, x)) {
      var i := Index(s.init, x);
      if i == Index(s.init, q) {
        NumberOfIndex(s.init, x);
        NumberOfIndex(s.init, q);
      } else {
        LostMonotone(s.packets, t.packets, i);
      }
    }
  }

  lemma OneAckedKeepsTracked(s: SentState, t: SentState, q: u16)
    requires s.Core() && Index(s.init, q) < |s.packets| && OneAcked(s, t, q)
    ensures t.Numbered() && t.Tracked()
  {
    forall x | x in t.ctrl.tx ensures Matches(t.ctrl.tx[x], t.packets[Index(t.init, x)]) {
      if Index(s.init, x) == Index(s.init, q) {
        NumberOfIndex(s.init, x);
        NumberOfIndex(s.init, q);
      }
    }
  }

  /** Acking one number acks exactly that packet and keeps the books in order. */
  lemma AckOneEffect(s: SentState, q: u16, delay: int, clock: Clock)
    requires s.Core() && Index(s.init, q) < |s.packets|
    ensures s.AckOne(q, delay, clock).Core() && SamePackets(s.packets, s.AckOne(q, delay, clock).packets)
    ensures AckedExactly(s.init, s.packets, s.AckOne(q, delay, clock).packets, [q])
  {
    var t := s.AckOne(q, delay, clock);
    AckOneIsOneAcked(s, q, delay, clock);
    OneAckedKeepsLost(s, t, q);
    OneAckedKeepsTracked(s, t, q);
    NumberOfIndex(s.init, q);
    forall i | 0 <= i < |s.packets| ensures t.packets[i].Acked() <==> s.packets[i].Acked() || Number(s.init, i) in [q] {
      IndexOfNumber(s.init, i);
    }
  }

  lemma SameIsTransitive(a: seq<SentPacket>, b: seq<SentPacket>, c: seq<SentPacket>)
    requires SamePackets(a, b) && SamePackets(b, c)
    ensures SamePackets(a, c)
  {
  }

  lemma ExactlyIsTransitive(init: u16, a: seq<SentPacket>, b: seq<SentPacket>, c: seq<SentPacket>, q: u16, qs: seq<u16>)
    requires |a| == |b| == |c| <= MAX_PACKETS && AckedExactly(init, a, b, [q]) && AckedExactly(init, b, c, qs)
    ensures AckedExactly(init, a, c, [q] + qs)
  {
  }

  /** From s to t exactly the packets with the given numbers have been acked, and the books are in order. */
  ghost predicate Acked(s: SentState, t: SentState, qs: seq<u16>) {
    && t.Core() && t.init == s.init && SamePackets(s.packets, t.packets) && |s.packets| <= MAX_PACKETS
    && AckedExactly(s.init, s.packets, t.packets, qs)
  }

  lemma AckedChains(s: SentState, t: SentState, u: SentState, q: u16, rest: seq<u16>)
    requires Acked(s, t, [q]) && Acked(t, u, rest)
    ensures Acked(s, u, [q] + rest)
  {
    SameIsTransitive(s.packets, t.packets, u.packets);
    ExactlyIsTransitive(s.init, s.packets, t.packets, u.packets, q, rest);
  }

  /** Acking a list of numbers acks exactly those packets and keeps the books in order. */
  lemma {:induction false} AckAllEffect(s: SentState, qs: seq<u16>, delay: int, clock: Clock)
    requires s.Core() && forall q :: q in qs ==> Index(s.init, q) < |s.packets|
    ensures Acked(s, s.AckAll(qs, delay, clock), qs)
    decreases |qs|
  {
    if qs != [] {
      var q, rest := qs[0], qs[1..];
      assert qs == [q] + rest;
      AckOneEffect(s, q, delay, clock);
      var t := s.AckOne(q, delay, clock);
      AckAllEffect(t, rest, delay, clock);
      AckedChains(s, t, t.AckAll(rest, delay, clock), q, rest);
    }
  }

  lemma {:induction false} MarkLostEffect(s: SentState, qs: seq<u16>)
    requires s.Core() && forall q :: q in qs ==> Index(s.init, q) < |s.packets| && LostAt(s.packets, Index(s.init, q))
    ensures s.MarkLost(qs).Core()
    ensures forall q :: q in s.MarkLost(qs).lost <==> q in s.lost || q in qs
    ensures s.MarkLost(qs).ctrl.tx == s.ctrl.tx
    decreases |qs|
  {
    if qs != [] {
      LostKeeps(s.ctrl, qs[0]);
      MarkLostEffect(s.(lost := s.lost + {qs[0]}, ctrl := s.ctrl.OnLost(qs[0], true).ctrl), qs[1..]);
    }
  }

  /** Detection over the packets from position lo on, all earlier ones being acked, finds exactly the lost packets. */
  lemma DetectFinds(s: SentState, lo: nat, q: u16)
    requires s.Numbered() && lo <= |s.packets| && forall k :: 0 <= k < lo ==> s.packets[k].Acked()
    ensures q in Detect(s.packets[lo..]) <==> Index(s.init, q) < |s.packets| && LostAt(s.packets, Index(s.init, q))
  {
    if q in Detect(s.packets[lo..]) {
      DetectedIsLost(s, lo, s.packets[lo..], q);
    } else if Index(s.init, q) < |s.packets| && LostAt(s.packets, Index(s.init, q)) {
      LostIsDetected(s, lo, s.packets[lo..], q);
    }
  }

  lemma DetectedIsLost(s: SentState, lo: nat, tail: seq<SentPacket>, q: u16)
    requires s.Numbered() && lo <= |s.packets| && tail == s.packets[lo..] && q in Detect(tail)
    ensures Index(s.init, q) < |s.packets| && LostAt(s.packets, Index(s.init, q))
  {
    DetectIsExact(tail, q);
    var k :| 0 <= k < |tail| && tail[k].seqNum == q && LostAt(tail, k);
    LostBehind(s, lo, tail, k);
  }

  lemma LostBehind(s: SentState, lo: nat, tail: seq<SentPacket>, k: nat)
    requires s.Numbered() && lo <= |s.packets| && tail == s.packets[lo..] && k < |tail| && LostAt(tail, k)
    ensures Index(s.init, tail[k].seqNum) == lo + k && LostAt(s.packets, lo + k)
  {
    IndexOfNumber(s.init, lo + k);
    LostAtSuffix(s.packets, lo, lo + k);
  }

  lemma LostIsDetected(s: SentState, lo: nat, tail: seq<SentPacket>, q: u16)
    requires s.Numbered() && lo <= |s.packets| && tail == s.packets[lo..]
    requires forall k :: 0 <= k < lo ==> s.packets[k].Acked()
    requires Index(s.init, q) < |s.packets| && LostAt(s.packets, Index(s.init, q))
    ensures q in Detect(tail)
  {
    var k := Index(s.init, q);
    DetectIsExact(tail, q);
    NumberOfIndex(s.init, q);
    LostAtSuffix(s.packets, lo, k);
    assert tail[k - lo].seqNum == q;
  }

  /** Marking what detection found makes the lost index exact. */
  lemma DetectionCompletes(s: SentState, lo: nat)
    requires s.Core() && lo <= |s.packets| && forall k :: 0 <= k < lo ==> s.packets[k].Acked()
    ensures s.MarkLost(Detect(s.packets[lo..])).Valid()
  {
    var qs := Detect(s.packets[lo..]);
    forall q: u16 ensures q in qs <==> Index(s.init, q) < |s.packets| && LostAt(s.packets, Index(s.init, q)) {
      DetectFinds(s, lo, q);
    }
    MarkLostEffect(s, qs);
    var t := s.MarkLost(qs);
    forall q: u16 ensures q in t.lost <==> Index(t.init, q) < |t.packets| && LostAt(t.packets, Index(t.init, q)) {
      assert q in t.lost <==> q in s.lost || q in qs;
    }
  }

  /** The list after has the acks of the list before, and those of the first n positions. */
  predicate AckedBefore(a: seq<SentPacket>, b: seq<SentPacket>, n: nat) {
    |a| == |b| && forall k :: 0 <= k < |a| ==> (b[k].Acked() <==> a[k].Acked() || k < n)
  }

  lemma AckedBeforeExtends(a: seq<SentPacket>, b: seq<SentPacket>, n: nat)
    requires AckedBefore(a, b, n) && n < |a| && a[n].Acked()
    ensures AckedBefore(a, b, n + 1)
  {
  }

  /** Acking the unacked packets before position hi. */
  lemma PriorEffect(s: SentState, lo: nat, hi: nat, delay: int, clock: Clock)
    requires s.Core() && lo <= hi < |s.packets| && forall k :: 0 <= k < lo ==> s.packets[k].Acked()
    ensures forall q :: q in s.Between(lo, hi) ==> Index(s.init, q) < |s.packets|
    ensures var t := s.AckAll(s.Between(lo, hi), delay, clock);
            && t.Core() && SamePackets(s.packets, t.packets)
            && AckedBefore(s.packets, t.packets, hi)
  {
    BetweenAreSent(s, lo, hi);
    var qs := s.Between(lo, hi);
    AckAllEffect(s, qs, delay, clock);
    var t := s.AckAll(qs, delay, clock);
    forall k | 0 <= k < |s.packets| ensures t.packets[k].Acked() <==> s.packets[k].Acked() || k < hi {
      IndexOfNumber(s.init, k);
      assert t.packets[k].Acked() <==> s.packets[k].Acked() || Number(s.init, k) in qs;
    }
  }

  /** What an ack acknowledges: everything up to its number, and the packets its bitmap names. */
  predicate Acknowledges(init: u16, ackNum: u16, sack: Option<SelectiveAck>, k: nat) {
    k <= Index(init, ackNum) || (sack.Some? && Bitmap(sack.value.Acked(), Index(init, ackNum) + 3, k))
  }

  predicate AckedBy(init: u16, a: seq<SentPacket>, b: seq<SentPacket>, ackNum: u16, sack: Option<SelectiveAck>)
    requires |a| == |b|
  {
    forall k :: 0 <= k < |a| ==> (b[k].Acked() <==> a[k].Acked() || Acknowledges(init, ackNum, sack, k))
  }

  /** The state after the numbers an ack names directly have been acked. */
  lemma NamedEffect(s: SentState, ackNum: u16, sack: Option<SelectiveAck>, delay: int, clock: Clock)
    requires s.Core() && Index(s.init, ackNum) < |s.packets|
    ensures (forall q :: q in s.Named(ackNum, sack) ==> Index(s.init, q) < |s.packets|)
    ensures var t := s.AckAll(s.Named(ackNum, sack), delay, clock);
            && t.Core() && SamePackets(s.packets, t.packets)
            && forall k :: 0 <= k < |s.packets| ==>
               (t.packets[k].Acked() <==> s.packets[k].Acked() || Names(s.init, ackNum, sack, k))
  {
    NamedAreSent(s, ackNum, sack);
    var qs := s.Named(ackNum, sack);
    AckAllEffect(s, qs, delay, clock);
    var t := s.AckAll(qs, delay, clock);
    forall k | 0 <= k < |s.packets|
      ensures t.packets[k].Acked() <==> s.packets[k].Acked() || Names(s.init, ackNum, sack, k)
    {
      IndexOfNumber(s.init, k);
      NumberOfIndex(s.init, ackNum);
    }
  }

  lemma SettlePriorUnfolds(s: SentState, first: u16, ackNum: u16, delay: int, clock: Clock)
    requires s.Numbered() && Index(s.init, first) < |s.packets| && Index(s.init, ackNum) < |s.packets|
    ensures var lo, hi := Index(s.init, first), Index(s.init, ackNum);
            && (hi <= lo ==> s.SettlePrior(first, ackNum, delay, clock) == s.MarkLost(Detect(s.packets[lo..])))
            && (lo < hi ==>
                  && (forall q :: q in s.Between(lo, hi) ==> Index(s.init, q) < |s.packets|)
                  && var t := s.AckAll(s.Between(lo, hi), delay, clock);
                     s.SettlePrior(first, ackNum, delay, clock) == t.MarkLost(Detect(t.packets[lo..])))
  {
    var lo, hi := Index(s.init, first), Index(s.init, ackNum);
    BetweenAreSent(s, lo, Max(lo, hi));
  }

  lemma SettlePriorEffect(s: SentState, first: u16, ackNum: u16, delay: int, clock: Clock)
    requires s.Core() && Index(s.init, ackNum) < |s.packets| && s.packets[Index(s.init, ackNum)].Acked()
    requires Index(s.init, first) == Gap(s.packets) < |s.packets|
    ensures var t := s.SettlePrior(first, ackNum, delay, clock);
            && t.Valid() && SamePackets(s.packets, t.packets)
            && AckedBefore(s.packets, t.packets, Index(s.init, ackNum) + 1)
  {
    var lo, hi := Gap(s.packets), Index(s.init, ackNum);
    SettlePriorUnfolds(s, first, ackNum, delay, clock);
    var t := s.SettlePrior(first, ackNum, delay, clock);
    if lo < hi {
      PriorEffect(s, lo, hi, delay, clock);
      var u := s.AckAll(s.Between(lo, hi), delay, clock);
      DetectionCompletes(u, lo);
      assert t.packets == u.packets;
      AckedBeforeExtends(s.packets, u.packets, hi);
    } else {
      DetectionCompletes(s, lo);
      assert t.packets == s.packets;
      assert forall k :: 0 <= k <= hi ==> s.packets[k].Acked();
    }
  }

  lemma AllAckedIsExact(s: SentState)
    requires s.Core() && Gap(s.packets) == |s.packets|
    ensures s.Valid()
  {
    forall q: u16 ensures q in s.lost <==> Index(s.init, q) < |s.packets| && LostAt(s.packets, Index(s.init, q)) {
    }
  }

  /**
   * Exact ack effect: afterwards a packet is acked if and only if it was before, or the ack acknowledges it;
   * payloads and numbers are untouched, and the lost index is exact again. This holds even when the call
   * returns the error that nothing is left unacked.
   */
  lemma OnAckNumEffect(s: SentState, ackNum: u16, sack: Option<SelectiveAck>, delay: int, clock: Clock)
    requires s.Core() && Index(s.init, ackNum) < |s.packets|
    ensures var t := s.OnAckNum(ackNum, sack, delay, clock).0;
            && t.Valid() && t.init == s.init && SamePackets(s.packets, t.packets)
            && AckedBy(s.init, s.packets, t.packets, ackNum, sack)
  {
    NamedEffect(s, ackNum, sack, delay, clock);
    var s1 := s.AckAll(s.Named(ackNum, sack), delay, clock);
    FirstUnackedIsGap(s1);
    if s1.FirstUnacked().None? {
      AllAckedIsExact(s1);
    } else {
      var t := s1.SettlePrior(s1.FirstUnacked().value, ackNum, delay, clock);
      SettlePriorEffect(s1, s1.FirstUnacked().value, ackNum, delay, clock);
      assert s.OnAckNum(ackNum, sack, delay, clock).0 == t;
      SameIsTransitive(s.packets, s1.packets, t.packets);
    }
  }

  /** The error is returned exactly when the ack's own number and bitmap leave nothing unacked. */
  lemma NothingLeftIff(s: SentState, ackNum: u16, sack: Option<SelectiveAck>, delay: int, clock: Clock)
    requires s.Core() && Index(s.init, ackNum) < |s.packets|
    ensures s.OnAckNum(ackNum, sack, delay, clock).1 ==
            if forall k :: 0 <= k < |s.packets| ==> s.packets[k].Acked() || Names(s.init, ackNum, sack, k)
            then Some(NoneAckNum) else None
  {
    NamedEffect(s, ackNum, sack, delay, clock);
    var s1 := s.AckAll(s.Named(ackNum, sack), delay, clock);
    FirstUnackedIsGap(s1);
    if s1.FirstUnacked().Some? {
      assert !s1.packets[Gap(s1.packets)].Acked();
    }
  }

  /**
   * For any ack at all: an unknown number is refused and changes nothing, the initial number changes nothing,
   * and any other has its exact effect; the state stays valid throughout.
   */
  lemma OnAckEffect(s: SentState, ackNum: u16, sack: Option<SelectiveAck>, delay: int, clock: Clock)
    requires s.Valid()
    ensures var r := s.OnAck(ackNum, sack, delay, clock); var t := r.0;
            && t.Valid() && t.init == s.init && SamePackets(s.packets, t.packets)
            && (r.1 == Some(InvalidAckNum) <==> ackNum != s.init && Index(s.init, ackNum) >= |s.packets|)
            && (ackNum == s.init || r.1 == Some(InvalidAckNum) ==> t == s)
            && (ackNum != s.init && r.1 != Some(InvalidAckNum) ==> AckedBy(s.init, s.packets, t.packets, ackNum, sack))
  {
    InRangeIsSent(s, ackNum);
    if s.InRange(ackNum) && ackNum != s.init {
      OnAckNumEffect(s, ackNum, sack, delay, clock);
      NothingLeftIff(s, ackNum, sack, delay, clock);
    }
  }

  // ---------------------------------------------------------------- transmissions

  /** A fresh transmission panics exactly when the bytes in flight and the new ones exceed the maximum window. */
  lemma FreshPanicsIff(s: SentState, size: u32)
    requires s.Valid()
    ensures s.CanTransmit(s.NextSeqNum(), size) <==> s.ctrl.window + size <= s.ctrl.maxWindow
  {
    NextNumber(s);
  }

  lemma FreshTransmission(s: SentState, ptype: PacketType, data: seq<u8>, now: int)
    requires s.Valid() && |s.packets| < MAX_PACKETS && s.ctrl.window + |data| <= s.ctrl.maxWindow
    ensures s.CanTransmit(s.NextSeqNum(), |data|)
    ensures var t := s.OnTransmit(s.NextSeqNum(), ptype, data, now);
            && t.Valid() && t.init == s.init
            && t.packets == s.packets + [SentPacket(s.NextSeqNum(), ptype, data, now, now, [])]
            && t.ctrl.window == s.ctrl.window + |data| && t.ctrl.maxWindow == s.ctrl.maxWindow
  {
    var q := s.NextSeqNum();
    NextNumber(s);
    InitialKeeps(s.ctrl, q, |data|);
    var p := SentPacket(q, ptype, data, now, now, []);
    var t := s.OnTransmit(q, ptype, data, now);
    AppendedKeeps(s, t, p);
  }

  lemma AppendedKeeps(s: SentState, t: SentState, p: SentPacket)
    requires s.Valid() && |s.packets| < MAX_PACKETS && !p.Acked() && p.seqNum == Number(s.init, |s.packets|)
    requires |p.data| < 0x1_0000_0000 && t.ctrl.Valid()
    requires t.ctrl.tx == s.ctrl.tx[p.seqNum := Record(|p.data|, 1, false)]
    requires t == s.(packets := s.packets + [p], ctrl := t.ctrl)
    ensures t.Valid()
  {
    var n := |s.packets|;
    IndexOfNumber(s.init, n);
    forall q: u16 ensures q in t.ctrl.tx <==> Index(s.init, q) < n + 1 {
      if Index(s.init, q) == n {
        NumberOfIndex(s.init, q);
      }
    }
    forall q: u16 | Index(s.init, q) < n + 1
      ensures LostAt(t.packets, Index(s.init, q)) <==> Index(s.init, q) < n && LostAt(s.packets, Index(s.init, q))
    {
      LostAtAppend(s.packets, p, Index(s.init, q));
    }
    assert t.LostExact();
  }

  lemma LostAtAppend(ps: seq<SentPacket>, p: SentPacket, k: nat)
    requires !p.Acked() && k <= |ps|
    ensures LostAt(ps + [p], k) <==> k < |ps| && LostAt(ps, k)
  {
    if k < |ps| {
      assert (ps + [p])[k + 1..] == ps[k + 1..] + [p];
      CountAppendUnacked(ps[k + 1..], p);
    } else {
      assert (ps + [p])[k + 1..] == [];
    }
  }

  /** A retransmission changes nothing but a time and a counter. */
  lemma Retransmission(s: SentState, q: u16, ptype: PacketType, data: seq<u8>, now: int)
    requires s.Valid() && Index(s.init, q) < |s.packets| && s.ctrl.tx[q].num < 0xFFFF_FFFF && |data| < 0x1_0000_0000
    ensures s.CanTransmit(q, |data|)
    ensures var t := s.OnTransmit(q, ptype, data, now); var k := Index(s.init, q);
            && t.Valid() && t.init == s.init
            && t.packets == s.packets[k := s.packets[k].(retransmission := now)]
            && t.ctrl == s.ctrl.(tx := s.ctrl.tx[q := s.ctrl.tx[q].(num := s.ctrl.tx[q].num + 1)])
  {
    RetransmissionKeeps(s.ctrl, q);
    ResentKeeps(s, s.OnTransmit(q, ptype, data, now), q, now);
  }

  /** State t is s after sending the packet numbered q once more. */
  ghost predicate Resent(s: SentState, t: SentState, q: u16, now: int)
    requires Index(s.init, q) < |s.packets| && q in s.ctrl.tx && s.ctrl.tx[q].num < 0xFFFF_FFFF
  {
    var k := Index(s.init, q);
    && t == s.(packets := s.packets[k := s.packets[k].(retransmission := now)], ctrl := t.ctrl)
    && t.ctrl.Valid() && t.ctrl.tx == s.ctrl.tx[q := s.ctrl.tx[q].(num := s.ctrl.tx[q].num + 1)]
  }

  lemma ResentKeepsLost(s: SentState, t: SentState, q: u16, now: int)
    requires s.Valid() && Index(s.init, q) < |s.packets| && s.ctrl.tx[q].num < 0xFFFF_FFFF && Resent(s, t, q, now)
    ensures t.LostExact()
  {
    forall i | 0 <= i < |s.packets| ensures LostAt(t.packets, i) <==> LostAt(s.packets, i) {
      SameAcksSameLost(s.packets, t.packets, i);
    }
  }

  lemma ResentKeeps(s: SentState, t: SentState, q: u16, now: int)
    requires s.Valid() && Index(s.init, q) < |s.packets| && s.ctrl.tx[q].num < 0xFFFF_FFFF && Resent(s, t, q, now)
    ensures t.Valid()
  {
    ResentKeepsLost(s, t, q, now);
    forall x | x in t.ctrl.tx ensures Matches(t.ctrl.tx[x], t.packets[Index(t.init, x)]) {
      assert Matches(s.ctrl.tx[x], s.packets[Index(s.init, x)]);
    }
  }

  lemma SameAcksSameLost(a: seq<SentPacket>, b: seq<SentPacket>, k: nat)
    requires |a| == |b| && k < |a| && forall i :: 0 <= i < |a| ==> (a[i].Acked() <==> b[i].Acked())
    ensures LostAt(a, k) <==> LostAt(b, k)
  {
    CountMonotone(a[k + 1..], b[k + 1..]);
    CountMonotone(b[k + 1..], a[k + 1..]);
  }

  // ---------------------------------------------------------------- whole runs

  datatype Action =
    | Transmit(ptype: PacketType, data: seq<u8>, now: int)
    | Retransmit(q: u16, now: int)
    | Receive(ackNum: u16, sack: Option<SelectiveAck>, delay: int, clock: Clock)
    | Expire

  predicate Permitted(s: SentState, a: Action) {
    match a
    case Transmit(_, data, _) => |s.packets| < MAX_PACKETS && s.ctrl.window + |data| <= s.ctrl.maxWindow
    case Retransmit(q, _) => q in s.ctrl.tx && s.ctrl.tx[q].num < 0xFFFF_FFFF
    case Receive(_, _, _, _) => true
    case Expire => true
  }

  /** One call; a permitted transmission does not panic. */
  ghost function Next(s: SentState, a: Action): (t: SentState)
    requires s.Valid() && Permitted(s, a)
    ensures t.Valid() && t.init == s.init
  {
    match a
    case Transmit(ptype, data, now) =>
      FreshTransmission(s, ptype, data, now);
      s.OnTransmit(s.NextSeqNum(), ptype, data, now)
    case Retransmit(q, now) =>
      Retransmission(s, q, s.packets[Index(s.init, q)].ptype, s.packets[Index(s.init, q)].data, now);
      s.OnTransmit(q, s.packets[Index(s.init, q)].ptype, s.packets[Index(s.init, q)].data, now)
    case Receive(ackNum, sack, delay, clock) =>
      OnAckEffect(s, ackNum, sack, delay, clock);
      s.OnAck(ackNum, sack, delay, clock).0
    case Expire =>
      ExpireKeeps(s);
      s.(ctrl := s.ctrl.OnTimeout())
  }

  lemma ExpireKeeps(s: SentState)
    requires s.Valid()
    ensures s.(ctrl := s.ctrl.OnTimeout()).Valid()
  {
    TimeoutKeeps(s.ctrl);
  }

  /** Packets are only added, and acks are never taken back. */
  predicate Grown(s: SentState, t: SentState) {
    && t.init == s.init && |s.packets| <= |t.packets|
    && forall k :: 0 <= k < |s.packets| && s.packets[k].Acked() ==> t.packets[k].Acked()
  }

  lemma NextGrows(s: SentState, a: Action)
    requires s.Valid() && Permitted(s, a)
    ensures Grown(s, Next(s, a))
  {
    match a
    case Transmit(ptype, data, now) => FreshTransmission(s, ptype, data, now);
    case Retransmit(q, now) =>
      Retransmission(s, q, s.packets[Index(s.init, q)].ptype, s.packets[Index(s.init, q)].data, now);
    case Receive(ackNum, sack, delay, clock) => OnAckEffect(s, ackNum, sack, delay, clock);
    case Expire =>
  }

  ghost predicate IsStep(s: SentState, a: Action, t: SentState) {
    s.Valid() && Permitted(s, a) && t == Next(s, a)
  }

  ghost predicate IsHistory(states: seq<SentState>, actions: seq<Action>) {
    && |states| == |actions| + 1
    && states[0].Valid()
    && forall i :: 0 <= i < |actions| ==> IsStep(states[i], actions[i], states[i + 1])
  }

  /**
   * Over every run the lost index is exactly the set of unacked packets with three acked packets after them
   * (so reading the lost packets never indexes out of range), the flight is balanced, and acks only grow.
   */
  lemma {:induction false} LostIndexIsExact(states: seq<SentState>, actions: seq<Action>, i: nat, j: nat)
    requires IsHistory(states, actions) && i <= j < |states|
    ensures states[j].LostExact() && states[j].ctrl.Balanced()
    ensures Grown(states[i], states[j])
    decreases j
  {
    if j > 0 {
      assert IsStep(states[j - 1], actions[j - 1], states[j - 1 + 1]);
      NextGrows(states[j - 1], actions[j - 1]);
      if i < j {
        LostIndexIsExact(states, actions, i, j - 1);
      }
    }
  }

  /** Two lists of packets that carry the same. */
  predicate SameContents(a: seq<SentPacket>, b: seq<SentPacket>) {
    |a| == |b| && forall k :: 0 <= k < |a| ==>
      b[k].seqNum == a[k].seqNum && b[k].ptype == a[k].ptype && b[k].data == a[k].data
  }

  // ---------------------------------------------------------------- walks in progress

  /** Acking the numbers that are left leads to the goal. */
  ghost predicate Acking(goal: SentState, s: SentState, qs: seq<u16>, delay: int, clock: Clock) {
    && s.Core() && (forall q :: q in qs ==> Index(s.init, q) < |s.packets|)
    && s.AckAll(qs, delay, clock) == goal
  }

  lemma AckingOn(goal: SentState, s: SentState, q: u16, rest: seq<u16>, delay: int, clock: Clock)
    requires Acking(goal, s, [q] + rest, delay, clock)
    ensures Index(s.init, q) < |s.packets| && Acking(goal, s.AckOne(q, delay, clock), rest, delay, clock)
  {
    AckingFirst(goal, s, [q] + rest, q, rest, delay, clock);
  }

  lemma AckingFirst(goal: SentState, s: SentState, qs: seq<u16>, q: u16, rest: seq<u16>, delay: int, clock: Clock)
    requires Acking(goal, s, qs, delay, clock) && qs == [q] + rest
    ensures Index(s.init, q) < |s.packets| && Acking(goal, s.AckOne(q, delay, clock), rest, delay, clock)
  {
    assert qs[0] == q && qs[1..] == rest;
    AckOneEffect(s, q, delay, clock);
  }

  /** A selective ack is its own number and then the walk over its bitmap. */
  lemma AckingNamed(s: SentState, ackNum: u16, sack: SelectiveAck, delay: int, clock: Clock) returns (goal: SentState,
                    rest: seq<u16>)
    requires s.Core() && Index(s.init, ackNum) < |s.packets|
    ensures forall q :: q in s.Named(ackNum, Some(sack)) ==> Index(s.init, q) < |s.packets|
    ensures goal == s.AckAll(s.Named(ackNum, Some(sack)), delay, clock)
    ensures rest == Targets(s.init, LastNumber(s.init, |s.packets|), Add(ackNum, 2), sack.Acked())
    ensures Acking(goal, s.AckOne(ackNum, delay, clock), rest, delay, clock)
  {
    var qs := s.Named(ackNum, Some(sack));
    rest := Targets(s.init, LastNumber(s.init, |s.packets|), Add(ackNum, 2), sack.Acked());
    assert qs == [ackNum] + rest;
    NamedAreWithin(s, ackNum, sack);
    goal := s.AckAll(qs, delay, clock);
    AckingFirst(goal, s, qs, ackNum, rest, delay, clock);
  }

  lemma NamedAreWithin(s: SentState, ackNum: u16, sack: SelectiveAck)
    requires s.Core() && Index(s.init, ackNum) < |s.packets|
    ensures forall q :: q in s.Named(ackNum, Some(sack)) ==> Index(s.init, q) < |s.packets|
  {
    NamedAreSent(s, ackNum, Some(sack));
  }

  lemma TargetsStep(init: u16, end: u16, q: u16, bits: seq<bool>, i: nat)
    requires i < |bits| && Contains(init, end, q)
    ensures var rest := Targets(init, end, Add(q, 1), bits[i + 1..]);
            Targets(init, end, q, bits[i..]) == if bits[i] then [q] + rest else rest
  {
    SuffixStep(bits, i);
    var rest := Targets(init, end, Add(q, 1), bits[i + 1..]);
    assert [] + rest == rest;
  }

  // ---------------------------------------------------------------- the lost packets in order

  /** The packets of the set, in ascending order of their numbers. */
  ghost function InOrder(names: set<u16>, init: u16, ps: seq<SentPacket>): seq<SentPacket>
    requires forall q :: q in names ==> Index(init, q) < |ps|
    decreases |names|
  {
    if names == {} then []
    else var q := Smallest(names); [ps[Index(init, q)]] + InOrder(names - {q}, init, ps)
  }

  method Ascend(names: set<u16>, init: u16, ps: seq<SentPacket>) returns (result: seq<SentPacket>)
    requires forall q :: q in names ==> Index(init, q) < |ps|
    ensures result == InOrder(names, init, ps)
  {
    result := [];
    var rest := names;
    while rest != {}
      invariant rest <= names && result + InOrder(rest, init, ps) == InOrder(names, init, ps)
      decreases |rest|
    {
      SmallestExists(rest);
      var q: u16 :| q in rest && forall x :: x in rest ==> q <= x;
      assert q == Smallest(rest);
      result := result + [ps[Index(init, q)]];
      rest := rest - {q};
    }
  }

  // ---------------------------------------------------------------- the object

  class SentPackets {
    const init: u16
    const ctrl: Controller
    var packets: seq<SentPacket>
    var lostPackets: set<u16>

    ghost function State(): SentState
      reads this, ctrl, ctrl.delayAcc
    {
      SentState(init, packets, lostPackets, ctrl.State())
    }

    constructor (init: u16, ctrl: Controller)
      requires ctrl.State().Valid() && ctrl.transmissions == map[]
      ensures this.init == init && this.ctrl == ctrl && State() == SentState(init, [], {}, ctrl.State())
      ensures State().Valid()
    {
      this.init, this.ctrl, packets, lostPackets := init, ctrl, [], {};
    }

    function NextSeqNum(): u16
      reads this
    {
      NumberAfter(init, |packets|)
    }

    method LastAckNum() returns (last: Option<u16>)
      ensures last == State().LastAckNum()
    {
      last := None;
      var i := 0;
      while i < |packets| && packets[i].Acked()
        invariant 0 <= i <= |packets|
        invariant forall k :: 0 <= k < i ==> packets[k].Acked()
        invariant last == if i == 0 then None else Some(packets[i - 1].seqNum)
      {
        last := Some(packets[i].seqNum);
        i := i + 1;
      }
      assert i == Gap(packets);
    }

    method FirstUnackedSeqNum() returns (first: Option<u16>)
      ensures first == State().FirstUnacked()
    {
      if |packets| == 0 {
        return None;
      }
      var last := LastAckNum();
      if last.None? {
        return Some(Add(init, 1));
      }
      if packets[|packets| - 1].seqNum == last.value {
        return None;
      }
      return Some(Add(last.value, 1));
    }

    method HasUnackedPackets() returns (r: bool)
      requires State().Numbered()
      ensures r <==> exists k :: 0 <= k < |packets| && !packets[k].Acked()
      ensures r <==> State().FirstUnacked().Some?
    {
      FirstUnackedIsGap(State());
      var first := FirstUnackedSeqNum();
      r := first.Some?;
    }

    /** Looks up every lost packet; none of the indices is out of range. */
    method LostPackets() returns (result: seq<SentPacket>)
      requires State().LostSound()
      ensures result == InOrder(lostPackets, init, packets)
    {
      result := Ascend(lostPackets, init, packets);
    }

    method Ack(q: u16, delay: int, clock: Clock)
      requires State().Core() && Index(init, q) < |packets| && ctrl.ReadableAt(clock.wall)
      modifies this, ctrl, ctrl.delayAcc
      ensures ctrl.ReadableAt(clock.wall) && State() == old(State()).AckOne(q, delay, clock)
      ensures State().Core()
    {
      AckOneEffect(State(), q, delay, clock);
      var k := Index(init, q);
      var p := packets[k];
      var err := ctrl.OnAck(p.seqNum, Congestion.Ack(delay, p.Rtt(clock.now), clock.now, clock.wall));
      if err.None? && !p.Acked() {
        packets := packets[k := p.(acks := [clock.now])];
        lostPackets := lostPackets - {p.seqNum};
      }
    }

    method OnSelectiveAck(ackNum: u16, sack: SelectiveAck, delay: int, clock: Clock)
      requires State().Core() && Index(init, ackNum) < |packets| && ctrl.ReadableAt(clock.wall)
      modifies this, ctrl, ctrl.delayAcc
      ensures ctrl.ReadableAt(clock.wall) && State().Core()
      ensures forall q :: q in old(State()).Named(ackNum, Some(sack)) ==> Index(init, q) < |old(packets)|
      ensures State() == old(State()).AckAll(old(State()).Named(ackNum, Some(sack)), delay, clock)
    {
      ghost var goal, targets := AckingNamed(State(), ackNum, sack, delay, clock);
      var end := LastNumber(init, |packets|);
      Ack(ackNum, delay, clock);
      Walk(goal, targets, end, Add(ackNum, 2), sack.Acked(), delay, clock);
    }

    /** Walks the bitmap until it leaves the range of sent numbers. */
    method Walk(ghost goal: SentState, ghost targets: seq<u16>, end: u16, start: u16, bits: seq<bool>, delay: int,
                clock: Clock)
      requires ctrl.ReadableAt(clock.wall) && Acking(goal, State(), targets, delay, clock)
      requires targets == Targets(init, end, start, bits)
      modifies this, ctrl, ctrl.delayAcc
      ensures ctrl.ReadableAt(clock.wall) && State().Core() && State() == goal
    {
      ghost var names := targets;
      var sackNum := start;
      var i := 0;
      assert bits[0..] == bits;
      while i < |bits| && Contains(init, end, sackNum)
        invariant 0 <= i <= |bits| && ctrl.ReadableAt(clock.wall)
        invariant names == Targets(init, end, sackNum, bits[i..]) && Acking(goal, State(), names, delay, clock)
      {
        TargetsStep(init, end, sackNum, bits, i);
        ghost var rest := Targets(init, end, Add(sackNum, 1), bits[i + 1..]);
        if bits[i] {
          AckingFirst(goal, State(), names, sackNum, rest, delay, clock);
          Ack(sackNum, delay, clock);
        }
        names := rest;
        sackNum := Add(sackNum, 1);
        i := i + 1;
      }
      assert names == [];
    }

    method AckPriorUnacked(first: u16, ackNum: u16, delay: int, clock: Clock)
      requires State().Core() && ctrl.ReadableAt(clock.wall)
      requires Index(init, first) < |packets| && Index(init, ackNum) < |packets|
      modifies this, ctrl, ctrl.delayAcc
      ensures ctrl.ReadableAt(clock.wall) && State().Core() && |packets| == |old(packets)|
      ensures var lo, hi := Index(init, first), Index(init, ackNum);
              && (hi <= lo ==> State() == old(State()))
              && (lo < hi ==>
                    && (forall q :: q in old(State()).Between(lo, hi) ==> Index(init, q) < |old(packets)|)
                    && State() == old(State()).AckAll(old(State()).Between(lo, hi), delay, clock))
    {
      var start, end := Index(init, first), Index(init, ackNum);
      if start >= end {
        return;
      }
      BetweenAreSent(State(), start, end);
      AckEach(packets[start..end], State().Between(start, end), delay, clock);
    }

    method AckEach(slice: seq<SentPacket>, ghost qs: seq<u16>, delay: int, clock: Clock)
      requires State().Core() && ctrl.ReadableAt(clock.wall) && |slice| == |qs|
      requires forall i :: 0 <= i < |qs| ==> slice[i].seqNum == qs[i] && Index(init, qs[i]) < |packets|
      modifies this, ctrl, ctrl.delayAcc
      ensures ctrl.ReadableAt(clock.wall) && State().Core() && |packets| == |old(packets)|
      ensures State() == old(State()).AckAll(qs, delay, clock)
    {
      ghost var goal := State().AckAll(qs, delay, clock);
      assert qs[0..] == qs;
      for i := 0 to |slice|
        invariant ctrl.ReadableAt(clock.wall) && |packets| == |old(packets)|
        invariant Acking(goal, State(), qs[i..], delay, clock)
      {
        SuffixStep(qs, i);
        AckingOn(goal, State(), slice[i].seqNum, qs[i + 1..], delay, clock);
        Ack(slice[i].seqNum, delay, clock);
      }
    }

    /** Scans backwards, counting acked packets. */
    method DetectLostPackets(first: u16) returns (lost: seq<u16>)
      requires Index(init, first) <= |packets|
      ensures lost == Detect(packets[Index(init, first)..])
    {
      lost := [];
      var acked := 0;
      var tail := packets[Index(init, first)..];
      var i := |tail|;
      while i > 0
        invariant 0 <= i <= |tail|
        invariant lost == Detect(tail[i..]) && acked == CountAcked(tail[i..])
      {
        i := i - 1;
        assert tail[i..][1..] == tail[i + 1..];
        if !tail[i].Acked() && acked >= LOSS_THRESHOLD {
          lost := lost + [tail[i].seqNum];
        }
        if tail[i].Acked() {
          acked := acked + 1;
        }
      }
      assert tail[0..] == tail;
    }

    method OnAckNum(ackNum: u16, sack: Option<SelectiveAck>, delay: int, clock: Clock) returns (error: Option<AckError>)
      requires State().Core() && Index(init, ackNum) < |packets| && ctrl.ReadableAt(clock.wall)
      modifies this, ctrl, ctrl.delayAcc
      ensures ctrl.ReadableAt(clock.wall) && (State(), error) == old(State()).OnAckNum(ackNum, sack, delay, clock)
    {
      NamedEffect(State(), ackNum, sack, delay, clock);
      if sack.Some? {
        OnSelectiveAck(ackNum, sack.value, delay, clock);
      } else {
        Ack(ackNum, delay, clock);
      }
      FirstUnackedIsGap(State());
      var first := FirstUnackedSeqNum();
      if first.None? {
        return Some(NoneAckNum);
      }
      SettlePrior(first.value, ackNum, delay, clock);
      return None;
    }

    method SettlePrior(first: u16, ackNum: u16, delay: int, clock: Clock)
      requires State().Core() && ctrl.ReadableAt(clock.wall)
      requires Index(init, first) < |packets| && Index(init, ackNum) < |packets|
      modifies this, ctrl, ctrl.delayAcc
      ensures ctrl.ReadableAt(clock.wall) && State() == old(State()).SettlePrior(first, ackNum, delay, clock)
    {
      SettlePriorUnfolds(State(), first, ackNum, delay, clock);
      AckPriorUnacked(first, ackNum, delay, clock);
      var losts := DetectLostPackets(first);
      RecordLost(losts);
    }

    method RecordLost(losts: seq<u16>)
      modifies this`lostPackets, ctrl
      ensures State() == old(State()).MarkLost(losts)
    {
      ghost var goal := State().MarkLost(losts);
      for i := 0 to |losts|
        invariant State().MarkLost(losts[i..]) == goal
      {
        assert losts[i..][1..] == losts[i + 1..];
        lostPackets := lostPackets + {losts[i]};
        var _ := ctrl.OnLostPacket(losts[i], true);
      }
    }

    method OnAck(ackNum: u16, sack: Option<SelectiveAck>, delay: int, clock: Clock) returns (error: Option<AckError>)
      requires State().Valid() && ctrl.ReadableAt(clock.wall)
      modifies this, ctrl, ctrl.delayAcc
      ensures ctrl.ReadableAt(clock.wall) && (State(), error) == old(State()).OnAck(ackNum, sack, delay, clock)
      ensures State().Valid()
    {
      OnAckEffect(State(), ackNum, sack, delay, clock);
      InRangeIsSent(State(), ackNum);
      if !Contains(init, LastNumber(init, |packets|), ackNum) {
        return Some(InvalidAckNum);
      }
      if ackNum != init {
        error := OnAckNum(ackNum, sack, delay, clock);
        return;
      }
      return None;
    }

    /** The panics of the original are the precondition. */
    method OnTransmit(q: u16, ptype: PacketType, data: seq<u8>, now: int)
      requires |data| < 0x1_0000_0000 && State().CanTransmit(q, |data|)
      modifies this, ctrl
      ensures State() == old(State()).OnTransmit(q, ptype, data, now)
    {
      var index := Index(init, q);
      var isRetransmission := index < |packets|;
      if isRetransmission {
        packets := packets[index := packets[index].(retransmission := now)];
      } else {
        packets := packets + [SentPacket(q, ptype, data, now, now, [])];
      }
      var error := ctrl.OnTransmit(q, !isRetransmission, |data|);
      assert error.None?;
    }

    method OnTimeout()
      modifies ctrl
      ensures State() == old(State()).(ctrl := old(State()).ctrl.OnTimeout())
    {
      ctrl.OnTimeout();
    }
  }
}
