/** What an ack tells the controller: each packet it acks, and then each packet it leaves lost. */
module Losses {
  import opened Words
  import opened Quotients
  import opened Collections
  import opened Packets
  import opened Congestion
  import opened Sending
  import Ledbat

  /** The controller after a series of calls. */
  function After(c: Ctrl, events: seq<Event>): Ctrl
    decreases |events|
  {
    if events == [] then c else After(Apply(c, events[0]), events[1..])
  }

  lemma {:induction false} AfterAppend(c: Ctrl, a: seq<Event>, b: seq<Event>)
    ensures After(c, a + b) == After(After(c, a), b)
    decreases |a|
  {
    if a == [] {
      assert a + b == b;
    } else {
      assert (a + b)[0] == a[0] && (a + b)[1..] == a[1..] + b;
      AfterAppend(Apply(c, a[0]), a[1..], b);
    }
  }

  // ---------------------------------------------------------------- losses

  function Losing(qs: seq<u16>): (events: seq<Event>)
    ensures |events| == |qs| && forall i :: 0 <= i < |qs| ==> events[i] == Lost(qs[i])
  {
    seq(|qs|, (i: int) requires 0 <= i < |qs| => Lost(qs[i]))
  }

  lemma {:induction false} MarkLostCalls(s: SentState, qs: seq<u16>)
    ensures s.MarkLost(qs).ctrl == After(s.ctrl, Losing(qs))
    decreases |qs|
  {
    if qs != [] {
      var s1 := s.(lost := s.lost + {qs[0]}, ctrl := s.ctrl.OnLost(qs[0], true).ctrl);
      MarkLostCalls(s1, qs[1..]);
      assert Losing(qs)[1..] == Losing(qs[1..]);
    }
  }

  /** k losses halve the maximum window k times, down to the minimum, and do nothing else. */
  lemma {:induction false} LossesHalve(c: Ctrl, qs: seq<u16>)
    requires c.minWindow <= c.maxWindow && forall q :: q in qs ==> q in c.tx
    ensures After(c, Losing(qs)) == c.(maxWindow := Max(Halved(c.maxWindow, |qs|), c.minWindow))
    decreases |qs|
  {
    if qs != [] {
      assert Losing(qs)[1..] == Losing(qs[1..]);
      LossesHalve(c.OnLost(qs[0], true).ctrl, qs[1..]);
      HalvedOfMax(c.maxWindow / 2, c.minWindow, |qs| - 1);
    }
  }

  // ---------------------------------------------------------------- acks

  /** When the packet was sent last. */
  function LastSent(s: SentState, q: u16): int {
    if Index(s.init, q) < |s.packets| then s.packets[Index(s.init, q)].retransmission else 0
  }

  /** The call for an ack of this number: with the delay reported, and the time since the packet was sent last. */
  predicate IsCall(s: SentState, e: Event, q: u16, delay: int, clock: Clock) {
    e == Settled(q, Ack(delay, clock.now - LastSent(s, q), clock.now, clock.wall))
  }

  /** The calls for acks of these numbers, one after the other. */
  predicate Settling(s: SentState, events: seq<Event>, qs: seq<u16>, delay: int, clock: Clock) {
    |events| == |qs| && forall i :: 0 <= i < |qs| ==> IsCall(s, events[i], qs[i], delay, clock)
  }

  lemma SettlingCons(s: SentState, first: Event, rest: seq<Event>, qs: seq<u16>, delay: int, clock: Clock)
    requires qs != [] && IsCall(s, first, qs[0], delay, clock) && Settling(s, rest, qs[1..], delay, clock)
    ensures Settling(s, [first] + rest, qs, delay, clock)
  {
  }

  /** An ack changes no sending times. */
  lemma SettlingBefore(s: SentState, t: SentState, events: seq<Event>, qs: seq<u16>, delay: int, clock: Clock)
    requires t.init == s.init && SamePackets(s.packets, t.packets) && Settling(t, events, qs, delay, clock)
    ensures Settling(s, events, qs, delay, clock)
  {
    forall i | 0 <= i < |qs| ensures IsCall(s, events[i], qs[i], delay, clock) {
      assert IsCall(t, events[i], qs[i], delay, clock);
    }
  }

  lemma AckOneCalls(s: SentState, q: u16, delay: int, clock: Clock) returns (e: Event)
    requires s.Numbered() && Index(s.init, q) < |s.packets|
    ensures IsCall(s, e, q, delay, clock) && s.AckOne(q, delay, clock).ctrl == Apply(s.ctrl, e)
  {
    NumberOfIndex(s.init, q);
    e := Settled(q, Ack(delay, s.packets[Index(s.init, q)].Rtt(clock.now), clock.now, clock.wall));
  }

  lemma {:induction false} AckAllCalls(s: SentState, qs: seq<u16>, delay: int, clock: Clock)
    returns (events: seq<Event>)
    requires s.Core() && forall q :: q in qs ==> Index(s.init, q) < |s.packets|
    ensures Settling(s, events, qs, delay, clock) && s.AckAll(qs, delay, clock).ctrl == After(s.ctrl, events)
    decreases |qs|
  {
    if qs == [] {
      events := [];
    } else {
      var first := AckOneCalls(s, qs[0], delay, clock);
      AckOneEffect(s, qs[0], delay, clock);
      var rest := AckAllCalls(s.AckOne(qs[0], delay, clock), qs[1..], delay, clock);
      events := [first] + rest;
      SettlingBefore(s, s.AckOne(qs[0], delay, clock), rest, qs[1..], delay, clock);
      SettlingCons(s, first, rest, qs, delay, clock);
      assert events[0] == first && events[1..] == rest;
    }
  }

  // ---------------------------------------------------------------- one ack

  /** Each number once. */
  predicate Distinct(qs: seq<u16>) {
    forall i, j :: 0 <= i < j < |qs| ==> qs[i] != qs[j]
  }

  lemma {:induction false} DistinctIsCounted(qs: seq<u16>, names: set<u16>)
    requires Distinct(qs) && forall q :: q in names <==> q in qs
    ensures |names| == |qs|
    decreases |qs|
  {
    if qs == [] {
      if names != {} {
        var q := Pick(names);
        assert false;
      }
    } else {
      var last, front := qs[|qs| - 1], qs[..|qs| - 1];
      forall q ensures q in names - {last} <==> q in front {
        assert q in qs <==> q in front || q == last;
      }
      DistinctIsCounted(front, names - {last});
    }
  }

  lemma {:induction false} DetectIsDistinct(s: SentState, lo: nat)
    requires s.Numbered() && lo <= |s.packets|
    ensures Distinct(Detect(s.packets[lo..]))
    ensures forall q :: q in Detect(s.packets[lo..]) ==> lo <= Index(s.init, q) < |s.packets|
    decreases |s.packets| - lo
  {
    if lo < |s.packets| {
      DetectIsDistinct(s, lo + 1);
      assert s.packets[lo..][1..] == s.packets[lo + 1..];
      IndexOfNumber(s.init, lo);
    }
  }

  /** From s to t exactly the packets numbered by qs have been acked. */
  ghost predicate Acknowledged(s: SentState, t: SentState, qs: seq<u16>) {
    && t.init == s.init && |t.packets| == |s.packets| <= MAX_PACKETS
    && (forall q :: q in qs ==> Index(s.init, q) < |s.packets|)
    && forall k :: 0 <= k < |s.packets| ==>
         (t.packets[k].Acked() <==> s.packets[k].Acked() || Number(s.init, k) in qs)
  }

  /** The controller is told of the acks of qs, and then of each lost packet, once, and of nothing else. */
  ghost predicate Tells(s: SentState, t: SentState, qs: seq<u16>, acks: seq<Event>, lost: seq<u16>, delay: int,
                        clock: Clock)
  {
    && Acknowledged(s, t, qs) && Settling(s, acks, qs, delay, clock)
    && Distinct(lost) && (forall q :: q in lost <==> q in t.lost)
    && t.ctrl == After(After(s.ctrl, acks), Losing(lost))
  }

  /** Detection tells of exactly the packets that it leaves lost. */
  lemma DetectionTells(s: SentState, lo: nat)
    requires s.Core() && lo <= |s.packets| && forall k :: 0 <= k < lo ==> s.packets[k].Acked()
    ensures var lost := Detect(s.packets[lo..]); var t := s.MarkLost(lost);
            && Distinct(lost) && (forall q :: q in lost <==> q in t.lost) && t.ctrl == After(s.ctrl, Losing(lost))
  {
    var lost := Detect(s.packets[lo..]);
    DetectIsDistinct(s, lo);
    DetectionCompletes(s, lo);
    MarkLostCalls(s, lost);
    forall q ensures q in lost <==> q in s.MarkLost(lost).lost {
      DetectFinds(s, lo, q);
    }
  }

  lemma AckAllTells(s: SentState, qs: seq<u16>, delay: int, clock: Clock) returns (acks: seq<Event>)
    requires s.Core() && forall q :: q in qs ==> Index(s.init, q) < |s.packets|
    ensures var u := s.AckAll(qs, delay, clock);
            && u.Core() && Acknowledged(s, u, qs) && Settling(s, acks, qs, delay, clock)
            && u.ctrl == After(s.ctrl, acks)
  {
    AckAllEffect(s, qs, delay, clock);
    acks := AckAllCalls(s, qs, delay, clock);
  }

  lemma PriorTells(s: SentState, lo: nat, hi: nat, delay: int, clock: Clock) returns (acks: seq<Event>, lost: seq<u16>)
    requires s.Core() && lo < hi < |s.packets| && forall k :: 0 <= k < lo ==> s.packets[k].Acked()
    ensures forall q :: q in s.Between(lo, hi) ==> Index(s.init, q) < |s.packets|
    ensures var qs := s.Between(lo, hi); var u := s.AckAll(qs, delay, clock);
            Tells(s, u.MarkLost(Detect(u.packets[lo..])), qs, acks, lost, delay, clock)
  {
    BetweenAreSent(s, lo, hi);
    acks := AckAllTells(s, s.Between(lo, hi), delay, clock);
    var u := s.AckAll(s.Between(lo, hi), delay, clock);
    DetectionTells(u, lo);
    lost := Detect(u.packets[lo..]);
  }

  lemma SettlePriorTells(s: SentState, first: u16, ackNum: u16, delay: int, clock: Clock)
    returns (qs: seq<u16>, acks: seq<Event>, lost: seq<u16>)
    requires s.Core() && Index(s.init, ackNum) < |s.packets|
    requires Index(s.init, first) == Gap(s.packets) < |s.packets|
    ensures Tells(s, s.SettlePrior(first, ackNum, delay, clock), qs, acks, lost, delay, clock)
  {
    var lo, hi := Gap(s.packets), Index(s.init, ackNum);
    SettlePriorUnfolds(s, first, ackNum, delay, clock);
    if lo < hi {
      qs := s.Between(lo, hi);
      acks, lost := PriorTells(s, lo, hi, delay, clock);
    } else {
      qs, acks := [], [];
      DetectionTells(s, lo);
      lost := Detect(s.packets[lo..]);
    }
  }

  lemma SettlingAppend(s: SentState, a: seq<Event>, b: seq<Event>, qs: seq<u16>, rs: seq<u16>, delay: int, clock: Clock)
    requires Settling(s, a, qs, delay, clock) && Settling(s, b, rs, delay, clock)
    ensures Settling(s, a + b, qs + rs, delay, clock)
  {
  }

  lemma TellsOn(s: SentState, u: SentState, t: SentState, qs: seq<u16>, acks: seq<Event>, rs: seq<u16>,
                more: seq<Event>, lost: seq<u16>, delay: int, clock: Clock)
    requires Acknowledged(s, u, qs) && Settling(s, acks, qs, delay, clock) && u.ctrl == After(s.ctrl, acks)
    requires Tells(u, t, rs, more, lost, delay, clock) && SamePackets(s.packets, u.packets)
    ensures Tells(s, t, qs + rs, acks + more, lost, delay, clock)
  {
    SettlingBefore(s, u, more, rs, delay, clock);
    SettlingAppend(s, acks, more, qs, rs, delay, clock);
    AfterAppend(s.ctrl, acks, more);
  }

  lemma TellsNoLoss(s: SentState, u: SentState, qs: seq<u16>, acks: seq<Event>, delay: int, clock: Clock)
    requires Acknowledged(s, u, qs) && Settling(s, acks, qs, delay, clock) && u.ctrl == After(s.ctrl, acks)
    requires u.Core() && Gap(u.packets) == |u.packets|
    ensures Tells(s, u, qs, acks, [], delay, clock)
  {
    AllAckedIsExact(u);
    assert Losing([]) == [];
  }

  lemma OnAckNumTells(s: SentState, ackNum: u16, sack: Option<SelectiveAck>, delay: int, clock: Clock)
    returns (qs: seq<u16>, acks: seq<Event>, lost: seq<u16>)
    requires s.Core() && Index(s.init, ackNum) < |s.packets|
    ensures Tells(s, s.OnAckNum(ackNum, sack, delay, clock).0, qs, acks, lost, delay, clock)
  {
    NamedEffect(s, ackNum, sack, delay, clock);
    qs := s.Named(ackNum, sack);
    acks := AckAllTells(s, qs, delay, clock);
    var u := s.AckAll(qs, delay, clock);
    FirstUnackedIsGap(u);
    if u.FirstUnacked().None? {
      TellsNoLoss(s, u, qs, acks, delay, clock);
      lost := [];
    } else {
      var rs, more;
      rs, more, lost := SettlePriorTells(u, u.FirstUnacked().value, ackNum, delay, clock);
      var t := u.SettlePrior(u.FirstUnacked().value, ackNum, delay, clock);
      TellsOn(s, u, t, qs, acks, rs, more, lost, delay, clock);
      qs, acks := qs + rs, acks + more;
    }
  }

  /**
   * Every ack that names a sent packet: the controller is told of each packet it acks, with the delay it reports and
   * the time since the packet was sent last, and then of every packet that it leaves lost, whether that was lost before
   * or not. No other ack tells it anything.
   */
  lemma OnAckTells(s: SentState, ackNum: u16, sack: Option<SelectiveAck>, delay: int, clock: Clock)
    returns (qs: seq<u16>, acks: seq<Event>, lost: seq<u16>)
    requires s.Valid() && ackNum != s.init && Index(s.init, ackNum) < |s.packets|
    ensures Tells(s, s.OnAck(ackNum, sack, delay, clock).0, qs, acks, lost, delay, clock)
  {
    InRangeIsSent(s, ackNum);
    qs, acks, lost := OnAckNumTells(s, ackNum, sack, delay, clock);
  }

  // ---------------------------------------------------------------- what that does to the window

  /** How many records are acked. */
  ghost function AckedRecords(c: Ctrl): nat {
    MapSum(c.tx, AckedOnce)
  }

  /** An ack raises the maximum window by at most one increment, and only if it is the first of its packet. */
  lemma AckRaises(c: Ctrl, e: Event)
    requires c.Valid() && e.Settled?
    ensures var d := Apply(c, e);
            && d.Valid() && d.minWindow == c.minWindow && d.maxInc == c.maxInc
            && if AckedRecords(d) == AckedRecords(c) then d.maxWindow == c.maxWindow
               else AckedRecords(d) == AckedRecords(c) + 1 && d.maxWindow <= c.maxWindow + c.maxInc
  {
    if e.q in c.tx && !c.tx[e.q].acked {
      AckKeeps(c, e.q, e.ack);
      MapSumUpdate(c.tx, AckedOnce, e.q, c.tx[e.q].(acked := true));
      CeilingFits(c);
      ClampHolds(c.maxWindow, c.minWindow, c.maxInc, c.RawAdjustment(e.q, e.ack));
    }
  }

  lemma OneMoreIncrement(inc: nat, n: nat)
    ensures inc * (n + 1) == inc * n + inc
  {
  }

  lemma {:induction false} AcksRaise(c: Ctrl, acks: seq<Event>) returns (n: nat)
    requires c.Valid() && forall i :: 0 <= i < |acks| ==> acks[i].Settled?
    ensures var d := After(c, acks);
            && d.Valid() && d.minWindow == c.minWindow && d.maxInc == c.maxInc
            && AckedRecords(d) == AckedRecords(c) + n && d.maxWindow <= c.maxWindow + c.maxInc * n
    decreases |acks|
  {
    if acks == [] {
      n := 0;
    } else {
      var c1 := Apply(c, acks[0]);
      AckRaises(c, acks[0]);
      n := AcksRaise(c1, acks[1..]);
      if AckedRecords(c1) != AckedRecords(c) {
        OneMoreIncrement(c.maxInc, n);
        n := n + 1;
      }
    }
  }

  /**
   * From c to d, `newly` packets were acked first and k packets are lost: the window was raised at most by an increment
   * for each of the former, and then halved once for each of the latter, down to the minimum.
   */
  ghost predicate RaisedThenHalved(c: Ctrl, d: Ctrl, raised: nat, newly: nat, k: nat) {
    && AckedRecords(d) == AckedRecords(c) + newly
    && c.minWindow <= raised <= c.maxWindow + c.maxInc * newly
    && d.maxWindow == Max(Halved(raised, k), c.minWindow)
  }

  lemma {:induction false} KeysStay(c: Ctrl, events: seq<Event>)
    requires forall i :: 0 <= i < |events| ==> events[i].Settled? || events[i].Lost?
    ensures After(c, events).tx.Keys == c.tx.Keys && After(c, events).minWindow == c.minWindow
    decreases |events|
  {
    if events != [] {
      var c1 := Apply(c, events[0]);
      assert c1.tx.Keys == c.tx.Keys && c1.minWindow == c.minWindow;
      KeysStay(c1, events[1..]);
    }
  }

  lemma CallsShrink(c: Ctrl, acks: seq<Event>, lost: seq<u16>) returns (raised: nat, newly: nat)
    requires c.Valid() && (forall i :: 0 <= i < |acks| ==> acks[i].Settled?) && (forall q :: q in lost ==> q in c.tx)
    ensures RaisedThenHalved(c, After(After(c, acks), Losing(lost)), raised, newly, |lost|)
  {
    newly := AcksRaise(c, acks);
    KeysStay(c, acks);
    var mid := After(c, acks);
    raised := mid.maxWindow;
    LossesHalve(mid, lost);
  }

  /** An ack raises the window for the packets it acks first, and halves it for each packet that it leaves lost. */
  lemma OnAckShrinks(s: SentState, ackNum: u16, sack: Option<SelectiveAck>, delay: int, clock: Clock)
    returns (raised: nat, newly: nat)
    requires s.Valid() && ackNum != s.init && Index(s.init, ackNum) < |s.packets|
    ensures var t := s.OnAck(ackNum, sack, delay, clock).0;
            RaisedThenHalved(s.ctrl, t.ctrl, raised, newly, |t.lost|)
  {
    var qs, acks, lost := OnAckTells(s, ackNum, sack, delay, clock);
    OnAckEffect(s, ackNum, sack, delay, clock);
    var t := s.OnAck(ackNum, sack, delay, clock).0;
    LostAreRecorded(s, t, lost);
    DistinctIsCounted(lost, t.lost);
    raised, newly := CallsShrink(s.ctrl, acks, lost);
  }

  lemma LostAreRecorded(s: SentState, t: SentState, lost: seq<u16>)
    requires s.Valid() && t.Valid() && t.init == s.init && |t.packets| == |s.packets|
    requires forall q :: q in lost <==> q in t.lost
    ensures forall q :: q in lost ==> q in s.ctrl.tx
  {
  }

  /** The window is at most half of what it was and of what the first acks may have added, or it is the minimum. */
  ghost predicate AtLeastHalved(c: Ctrl, d: Ctrl) {
    && AckedRecords(c) <= AckedRecords(d)
    && (d.maxWindow == c.minWindow
        || 2 * d.maxWindow <= c.maxWindow + c.maxInc * (AckedRecords(d) - AckedRecords(c)))
  }

  lemma HalvesAtLeastOnce(c: Ctrl, d: Ctrl, raised: nat, newly: nat, k: nat)
    requires RaisedThenHalved(c, d, raised, newly, k) && k > 0
    ensures AtLeastHalved(c, d)
  {
    assert 2 * Halved(raised, k) <= raised;
  }

  /** So an ack that leaves any packet lost at least halves the window. */
  lemma LossesReachTheWindow(s: SentState, ackNum: u16, sack: Option<SelectiveAck>, delay: int, clock: Clock)
    requires s.Valid() && ackNum != s.init && Index(s.init, ackNum) < |s.packets|
    requires s.OnAck(ackNum, sack, delay, clock).0.lost != {}
    ensures AtLeastHalved(s.ctrl, s.OnAck(ackNum, sack, delay, clock).0.ctrl)
  {
    var t := s.OnAck(ackNum, sack, delay, clock).0;
    var raised, newly := OnAckShrinks(s, ackNum, sack, delay, clock);
    HalvesAtLeastOnce(s.ctrl, t.ctrl, raised, newly, |t.lost|);
  }

  /** In every history of a sender. */
  lemma LossesReachTheWindowInHistories(states: seq<SentState>, actions: seq<Action>, i: nat)
    requires IsHistory(states, actions) && i < |actions| && actions[i].Receive?
    requires actions[i].ackNum != states[i].init && Index(states[i].init, actions[i].ackNum) < |states[i].packets|
    requires states[i + 1].lost != {}
    ensures AtLeastHalved(states[i].ctrl, states[i + 1].ctrl)
  {
    assert IsStep(states[i], actions[i], states[i + 1]);
    LossesReachTheWindow(states[i], actions[i].ackNum, actions[i].sack, actions[i].delay, actions[i].clock);
  }

  // ---------------------------------------------------------------- an ack that acks nothing

  lemma {:induction false} KnownAcksDoNothing(c: Ctrl, acks: seq<Event>)
    requires forall i :: 0 <= i < |acks| ==> acks[i].Settled? && acks[i].q in c.tx && c.tx[acks[i].q].acked
    ensures After(c, acks) == c
    decreases |acks|
  {
    if acks != [] {
      KnownAcksDoNothing(c, acks[1..]);
    }
  }

  lemma KnownCallsDoNothing(s: SentState, acks: seq<Event>, qs: seq<u16>, delay: int, clock: Clock)
    requires Settling(s, acks, qs, delay, clock) && forall q :: q in qs ==> q in s.ctrl.tx && s.ctrl.tx[q].acked
    ensures After(s.ctrl, acks) == s.ctrl
  {
    forall i | 0 <= i < |acks| ensures acks[i].Settled? && acks[i].q in s.ctrl.tx && s.ctrl.tx[acks[i].q].acked {
      assert IsCall(s, acks[i], qs[i], delay, clock);
    }
    KnownAcksDoNothing(s.ctrl, acks);
  }

  /**
   * An ack that acks nothing new halves the window again for every packet that is still lost: a loss is not told once,
   * but with every ack until the packet is acked.
   */
  lemma RepeatedAckHalvesAgain(s: SentState, ackNum: u16, delay: int, clock: Clock)
    requires s.Valid() && ackNum != s.init && Index(s.init, ackNum) < |s.packets|
    requires forall k :: 0 <= k <= Index(s.init, ackNum) ==> s.packets[k].Acked()
    ensures var t := s.OnAck(ackNum, None, delay, clock).0;
            t.lost == s.lost && t.ctrl.maxWindow == Max(Halved(s.ctrl.maxWindow, |s.lost|), s.ctrl.minWindow)
  {
    var t := s.OnAck(ackNum, None, delay, clock).0;
    var qs, acks, lost := OnAckTells(s, ackNum, None, delay, clock);
    OnAckEffect(s, ackNum, None, delay, clock);
    NothingNew(s, t, ackNum, qs);
    KnownCallsDoNothing(s, acks, qs, delay, clock);
    LostAreRecorded(s, t, lost);
    DistinctIsCounted(lost, t.lost);
    LossesHalve(s.ctrl, lost);
  }

  lemma NothingNew(s: SentState, t: SentState, ackNum: u16, qs: seq<u16>)
    requires s.Valid() && t.Valid() && t.init == s.init && SamePackets(s.packets, t.packets)
    requires Index(s.init, ackNum) < |s.packets| && AckedBy(s.init, s.packets, t.packets, ackNum, None)
    requires forall k :: 0 <= k <= Index(s.init, ackNum) ==> s.packets[k].Acked()
    requires Acknowledged(s, t, qs)
    ensures t.lost == s.lost && forall q :: q in qs ==> q in s.ctrl.tx && s.ctrl.tx[q].acked
  {
    forall k | 0 <= k < |s.packets| ensures t.packets[k].Acked() <==> s.packets[k].Acked() {
    }
    forall q | q in qs ensures q in s.ctrl.tx && s.ctrl.tx[q].acked {
      NumberOfIndex(s.init, q);
      assert t.packets[Index(s.init, q)].Acked();
    }
    forall q ensures q in t.lost <==> q in s.lost {
      SameLoss(s.packets, t.packets, Index(s.init, q));
    }
  }

  lemma SameLoss(a: seq<SentPacket>, b: seq<SentPacket>, k: nat)
    requires |a| == |b| && forall i :: 0 <= i < |a| ==> (a[i].Acked() <==> b[i].Acked())
    ensures k < |a| ==> (LostAt(a, k) <==> LostAt(b, k))
  {
    if k < |a| {
      SameCount(a[k + 1..], b[k + 1..]);
    }
  }

  lemma {:induction false} SameCount(a: seq<SentPacket>, b: seq<SentPacket>)
    requires |a| == |b| && forall i :: 0 <= i < |a| ==> (a[i].Acked() <==> b[i].Acked())
    ensures CountAcked(a) == CountAcked(b)
    decreases |a|
  {
    if a != [] {
      SameCount(a[1..], b[1..]);
    }
  }

  // ---------------------------------------------------------------- an ack that reports a queue

  /**
   * The acks report a queue longer than the target, by a sample that has not expired. With nothing in flight the
   * adjustment is what the platform makes of no number; that must not be a rise.
   */
  ghost predicate AllQueueing(c: Ctrl, acks: seq<Event>, s: Sample) {
    && Limited(c, c.delayWindow) && c.target > 0 && c.undefinedInt <= 0
    && forall i :: 0 <= i < |acks| ==>
         acks[i].Settled? && Prompt(acks[i], c.delayWindow) && Ledbat.Queueing(c, acks[i].ack, s)
  }

  lemma NoFlightNeverRaises(c: Ctrl, q: u16, ack: Ack)
    requires c.Valid() && q in c.tx && c.window == 0 && c.undefinedInt <= 0
    ensures c.OnAck(q, ack).ctrl.maxWindow <= c.maxWindow
  {
    CeilingFits(c);
    Ledbat.SettleMoves(c.Noted(ack), q, c.RawAdjustment(q, ack), ack.rtt);
  }

  lemma AckSteersNothing(c: Ctrl, e: Event)
    requires e.Settled?
    ensures var d := Apply(c, e); c.samples <= d.samples && d.target == c.target && d.undefinedInt == c.undefinedInt
  {
  }

  lemma AckNeverRaises(c: Ctrl, e: Event, s: Sample)
    requires AllQueueing(c, [e], s)
    ensures var d := Apply(c, e);
            && d.maxWindow <= c.maxWindow && Limited(d, c.delayWindow) && c.samples <= d.samples
            && d.target == c.target && d.undefinedInt == c.undefinedInt
  {
    assert [e][0] == e;
    ApplyStaysLimited(c, e, c.delayWindow);
    AckSteersNothing(c, e);
    CeilingFits(c);
    if e.q in c.tx {
      if c.window > 0 {
        Ledbat.QueuesNeverRaise(c, e.q, e.ack, s);
      } else {
        NoFlightNeverRaises(c, e.q, e.ack);
      }
    }
  }

  lemma {:induction false} AcksNeverRaise(c: Ctrl, acks: seq<Event>, s: Sample)
    requires AllQueueing(c, acks, s)
    ensures After(c, acks).maxWindow <= c.maxWindow
    decreases |acks|
  {
    if acks != [] {
      var c1, rest := Apply(c, acks[0]), acks[1..];
      assert [acks[0]][0] == acks[0];
      AckNeverRaises(c, acks[0], s);
      forall i | 0 <= i < |rest| ensures Ledbat.Queueing(c1, rest[i].ack, s) && rest[i].Settled? {
        assert Ledbat.Queueing(c, acks[i + 1].ack, s);
      }
      AcksNeverRaise(c1, rest, s);
    }
  }

  /** The packet that an ack comes in reports a queue longer than the target. */
  predicate ReportsQueue(c: Ctrl, delay: int, clock: Clock, s: Sample) {
    && s in c.samples && clock.wall <= s.deadline && delay / 1000 - s.value / 1000 > c.target > 0
    && OnTheWire(delay) && clock.wall <= clock.now + c.delayWindow
  }

  lemma CallsReportQueue(s: SentState, acks: seq<Event>, qs: seq<u16>, delay: int, clock: Clock, sample: Sample)
    requires Limited(s.ctrl, s.ctrl.delayWindow) && s.ctrl.undefinedInt <= 0
    requires ReportsQueue(s.ctrl, delay, clock, sample) && Settling(s, acks, qs, delay, clock)
    ensures AllQueueing(s.ctrl, acks, sample)
  {
    forall i | 0 <= i < |acks|
      ensures acks[i].Settled? && Prompt(acks[i], s.ctrl.delayWindow) && Ledbat.Queueing(s.ctrl, acks[i].ack, sample)
    {
      assert IsCall(s, acks[i], qs[i], delay, clock);
    }
  }

  /** However many packets it acks, an ack that reports a queue longer than the target never widens the window. */
  lemma QueuesNeverRaiseOnAck(s: SentState, ackNum: u16, sack: Option<SelectiveAck>, delay: int, clock: Clock,
                              sample: Sample)
    requires s.Valid() && Limited(s.ctrl, s.ctrl.delayWindow) && s.ctrl.undefinedInt <= 0
    requires ReportsQueue(s.ctrl, delay, clock, sample)
    ensures s.OnAck(ackNum, sack, delay, clock).0.ctrl.maxWindow <= s.ctrl.maxWindow
  {
    OnAckEffect(s, ackNum, sack, delay, clock);
    if ackNum != s.init && Index(s.init, ackNum) < |s.packets| {
      var qs, acks, lost := OnAckTells(s, ackNum, sack, delay, clock);
      CallsReportQueue(s, acks, qs, delay, clock, sample);
      AcksNeverRaise(s.ctrl, acks, sample);
      var newly := AcksRaise(s.ctrl, acks);
      LossesNeverRaise(After(s.ctrl, acks), lost);
    }
  }

  lemma {:induction false} LossesNeverRaise(c: Ctrl, qs: seq<u16>)
    requires c.minWindow <= c.maxWindow
    ensures After(c, Losing(qs)).maxWindow <= c.maxWindow
    decreases |qs|
  {
    if qs != [] {
      assert Losing(qs)[1..] == Losing(qs[1..]);
      LossesNeverRaise(c.OnLost(qs[0], true).ctrl, qs[1..]);
    }
  }

  /** Every ack comes with a delay off the wire, and is handled before its sample expires. */
  predicate PromptAction(a: Action, delayWindow: int) {
    a.Receive? ==> OnTheWire(a.delay) && a.clock.wall <= a.clock.now + delayWindow
  }

  /** What the law needs of a controller, and every action keeps. */
  ghost predicate Steered(c: Ctrl, delayWindow: int, undefinedInt: int) {
    Limited(c, delayWindow) && c.undefinedInt == undefinedInt
  }

  lemma {:induction false} CallsStaySteered(c: Ctrl, events: seq<Event>, delayWindow: int, undefinedInt: int)
    requires Steered(c, delayWindow, undefinedInt)
    requires forall i :: 0 <= i < |events| ==> (events[i].Settled? || events[i].Lost?) && Prompt(events[i], delayWindow)
    ensures Steered(After(c, events), delayWindow, undefinedInt)
    decreases |events|
  {
    if events != [] {
      ApplyStaysLimited(c, events[0], delayWindow);
      CallsStaySteered(Apply(c, events[0]), events[1..], delayWindow, undefinedInt);
    }
  }

  lemma PromptCalls(s: SentState, acks: seq<Event>, qs: seq<u16>, a: Action, delayWindow: int)
    requires a.Receive? && PromptAction(a, delayWindow) && Settling(s, acks, qs, a.delay, a.clock)
    ensures forall i :: 0 <= i < |acks| ==> acks[i].Settled? && Prompt(acks[i], delayWindow)
  {
    forall i | 0 <= i < |acks| ensures acks[i].Settled? && Prompt(acks[i], delayWindow) {
      assert IsCall(s, acks[i], qs[i], a.delay, a.clock);
    }
  }

  lemma ReceiveStaysSteered(s: SentState, a: Action, delayWindow: int, undefinedInt: int)
    requires s.Valid() && a.Receive? && Steered(s.ctrl, delayWindow, undefinedInt) && PromptAction(a, delayWindow)
    ensures Steered(Next(s, a).ctrl, delayWindow, undefinedInt)
  {
    OnAckEffect(s, a.ackNum, a.sack, a.delay, a.clock);
    if a.ackNum != s.init && Index(s.init, a.ackNum) < |s.packets| {
      var qs, acks, lost := OnAckTells(s, a.ackNum, a.sack, a.delay, a.clock);
      PromptCalls(s, acks, qs, a, delayWindow);
      CallsStaySteered(s.ctrl, acks, delayWindow, undefinedInt);
      CallsStaySteered(After(s.ctrl, acks), Losing(lost), delayWindow, undefinedInt);
    }
  }

  /** Sending changes the flight and the records only. */
  lemma SendingSteersNothing(c: Ctrl, q: u16, size: u32)
    ensures var d := c.OnInitial(q, size).ctrl; d == c.(tx := d.tx, window := d.window)
    ensures var d := c.OnRetransmission(q).ctrl; d == c.(tx := d.tx, window := d.window)
  {
  }

  lemma StillSteered(c: Ctrl, d: Ctrl, delayWindow: int, undefinedInt: int)
    requires Steered(c, delayWindow, undefinedInt) && d.Valid()
    requires d == c.(tx := d.tx, window := d.window, maxWindow := d.maxWindow, timeout := d.timeout)
    ensures Steered(d, delayWindow, undefinedInt)
  {
  }

  lemma OtherStaysSteered(s: SentState, a: Action, delayWindow: int, undefinedInt: int)
    requires s.Valid() && Permitted(s, a) && !a.Receive? && Steered(s.ctrl, delayWindow, undefinedInt)
    ensures Steered(Next(s, a).ctrl, delayWindow, undefinedInt)
  {
    match a {
      case Transmit(_, data, _) => SendingSteersNothing(s.ctrl, s.NextSeqNum(), |data|);
      case Retransmit(q, _) => SendingSteersNothing(s.ctrl, q, 0);
      case Expire =>
    }
    StillSteered(s.ctrl, Next(s, a).ctrl, delayWindow, undefinedInt);
  }

  lemma {:induction false} HistoryStaysSteered(states: seq<SentState>, actions: seq<Action>, i: nat)
    requires IsHistory(states, actions) && i < |states|
    requires Limited(states[0].ctrl, states[0].ctrl.delayWindow)
    requires forall k :: 0 <= k < |actions| ==> PromptAction(actions[k], states[0].ctrl.delayWindow)
    ensures Steered(states[i].ctrl, states[0].ctrl.delayWindow, states[0].ctrl.undefinedInt)
  {
    if i > 0 {
      HistoryStaysSteered(states, actions, i - 1);
      assert IsStep(states[i - 1], actions[i - 1], states[(i - 1) + 1]);
      var s, a, c := states[i - 1], actions[i - 1], states[0].ctrl;
      if a.Receive? {
        ReceiveStaysSteered(s, a, c.delayWindow, c.undefinedInt);
      } else {
        OtherStaysSteered(s, a, c.delayWindow, c.undefinedInt);
      }
    }
  }

  /** In every history of a sender. */
  lemma QueuesNeverRaiseInHistories(states: seq<SentState>, actions: seq<Action>, i: nat, sample: Sample)
    requires IsHistory(states, actions) && i < |actions| && actions[i].Receive?
    requires Limited(states[0].ctrl, states[0].ctrl.delayWindow) && states[0].ctrl.undefinedInt <= 0
    requires forall k :: 0 <= k < |actions| ==> PromptAction(actions[k], states[0].ctrl.delayWindow)
    requires ReportsQueue(states[i].ctrl, actions[i].delay, actions[i].clock, sample)
    ensures states[i + 1].ctrl.maxWindow <= states[i].ctrl.maxWindow
  {
    HistoryStaysSteered(states, actions, i);
    assert IsStep(states[i], actions[i], states[i + 1]);
    QueuesNeverRaiseOnAck(states[i], actions[i].ackNum, actions[i].sack, actions[i].delay, actions[i].clock, sample);
  }
}
