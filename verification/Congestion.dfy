/** The LEDBAT congestion controller and its delay accumulator (congestion.go). Durations are in nanoseconds. */
module Congestion {
  import opened Words
  import opened Collections

  // ---------------------------------------------------------------- delay samples

  datatype Sample = Sample(value: int, deadline: int)

  /** The smallest value among the samples that have not expired at `now`. */
  function MinUnexpired(samples: seq<Sample>, now: int): Option<int> {
    if samples == [] then None
    else
      var s := samples[|samples| - 1];
      var rest := MinUnexpired(samples[..|samples| - 1], now);
      if now > s.deadline || (rest.Some? && rest.value <= s.value) then rest else Some(s.value)
  }

  /** The base delay: zero when every sample has expired. */
  function LeastDelay(samples: seq<Sample>, now: int): int {
    var m := MinUnexpired(samples, now);
    if m.Some? then m.value else 0
  }

  /** `MinUnexpired` is the minimum over all unexpired samples. */
  lemma {:induction false} MinUnexpiredIsMinimum(samples: seq<Sample>, now: int)
    ensures MinUnexpired(samples, now).None? <==> forall s :: s in samples ==> now > s.deadline
    ensures MinUnexpired(samples, now).Some? ==>
              && (exists s :: s in samples && now <= s.deadline && s.value == MinUnexpired(samples, now).value)
              && (forall s :: s in samples && now <= s.deadline ==> MinUnexpired(samples, now).value <= s.value)
  {
    if samples != [] {
      var last := samples[|samples| - 1];
      var front := samples[..|samples| - 1];
      MinUnexpiredIsMinimum(front, now);
      assert forall s :: s in samples <==> s in front || s == last;
    }
  }

  /** The minimum is determined by its defining property. */
  lemma MinUnexpiredIsUnique(samples: seq<Sample>, now: int, m: Sample)
    requires m in samples && now <= m.deadline
    requires forall s :: s in samples && now <= s.deadline ==> m.value <= s.value
    ensures MinUnexpired(samples, now) == Some(m.value)
  {
    MinUnexpiredIsMinimum(samples, now);
  }

  lemma {:induction false} SmallestSampleExists(h: multiset<Sample>)
    requires h != multiset{}
    ensures exists m :: m in h && forall s :: s in h ==> m.value <= s.value
    decreases |h|
  {
    var k :| k in h;
    var rest := h - multiset{k};
    if rest == multiset{} {
      assert forall s :: s in h ==> s == k || s in rest;
      assert k in h && forall s :: s in h ==> k.value <= s.value;
    } else {
      SmallestSampleExists(rest);
      var m :| m in rest && forall s :: s in rest ==> m.value <= s.value;
      var least := if k.value < m.value then k else m;
      assert forall s :: s in h ==> s == k || s in rest;
      assert least in h && forall s :: s in h ==> least.value <= s.value;
    }
  }

  /** A heap of samples that drops expired ones only when they reach the top. */
  class DelayAccumulator {
    var delays: multiset<Sample>
    const window: int
    ghost var pushed: seq<Sample>
    ghost var lastRead: int

    /** Every pushed sample that is missing from the heap had expired by the last read. */
    ghost predicate Valid()
      reads this
    {
      && (forall s :: s in delays ==> s in pushed)
      && (forall s :: s in pushed && lastRead <= s.deadline ==> s in delays)
    }

    constructor (window: int, ghost start: int)
      ensures Valid() && pushed == [] && this.window == window && lastRead == start
    {
      this.window, delays, pushed, lastRead := window, multiset{}, [], start;
    }

    method Push(value: int, receivedAt: int)
      requires Valid()
      modifies this
      ensures Valid() && pushed == old(pushed) + [Sample(value, receivedAt + window)] && lastRead == old(lastRead)
    {
      delays := delays + multiset{Sample(value, receivedAt + window)};
      pushed := pushed + [Sample(value, receivedAt + window)];
    }

    /** Popping lazily loses nothing: the answer is the minimum over every unexpired sample ever pushed. */
    method BaseDelay(now: int) returns (base: int)
      requires Valid() && lastRead <= now
      modifies this
      ensures Valid() && pushed == old(pushed) && lastRead == now
      ensures base == LeastDelay(pushed, now)
    {
      lastRead := now;
      while delays != multiset{}
        invariant Valid() && pushed == old(pushed) && lastRead == now
        decreases |delays|
      {
        SmallestSampleExists(delays);
        var min :| min in delays && forall s :: s in delays ==> min.value <= s.value;
        if now > min.deadline {
          delays := delays - multiset{min};
        } else {
          MinUnexpiredIsUnique(pushed, now, min);
          return min.value;
        }
      }
      MinUnexpiredIsMinimum(pushed, now);
      return 0;
    }
  }

  // ---------------------------------------------------------------- arithmetic of the controller

  /** Integer division that truncates toward zero, as in Go. */
  function Quotient(a: int, b: int): int
    requires b > 0
  {
    if a >= 0 then a / b else -(-a / b)
  }

  /** `int64(x)` for a finite float. */
  function Truncate(x: real): int {
    if x >= 0.0 then x.Floor else -(-x).Floor
  }

  /** `uint32(d.Microseconds())`. */
  function Micros32(d: int): u32 {
    Wrap32(Quotient(d, 1000))
  }

  /**
   * The raw change of the window for one ack. A zero target or an empty window makes the float division
   * undefined; what `int64` then yields depends on the platform and is passed in as `undefinedInt`.
   */
  function Adjustment(target: u32, base: u32, delay: u32, window: u32, size: u32, maxInc: u32, gain: real,
                      undefinedInt: int): int {
    if target == 0 || window == 0 then undefinedInt
    else Change(gain, maxInc, target - (delay - base), target, size, window)
  }

  /** An increment, scaled by how far the delay is off its target and by the packet's share of the window. */
  function Change(gain: real, maxInc: nat, offTarget: int, target: nat, size: nat, window: nat): int
    requires target > 0 && window > 0
  {
    var delayFactor := offTarget as real / target as real;
    var windowFactor := size as real / window as real;
    Truncate(Product(gain, maxInc as real, delayFactor, windowFactor))
  }

  function RttAdjustment(rttMicros: int, packetRttMicros: int): int {
    Quotient(packetRttMicros - rttMicros, 8)
  }

  function RttVarianceAdjustment(rttMicros: int, rttVarMicros: int, packetRttMicros: int): int {
    var difference := if rttMicros >= packetRttMicros then rttMicros - packetRttMicros else packetRttMicros - rttMicros;
    Quotient(difference - rttVarMicros, 4)
  }

  /** The clamped maximum window: not below the minimum, and up by at most one increment. */
  function Clamped(maxWindow: u32, minWindow: u32, maxInc: u32, adjustment: int): u32 {
    Wrap32(Min(Max(maxWindow + adjustment, minWindow), maxWindow + maxInc))
  }

  /** Whatever the adjustment, the new window is between the minimum and one increment up. */
  lemma ClampHolds(maxWindow: u32, minWindow: u32, maxInc: u32, adjustment: int)
    requires minWindow <= maxWindow && maxWindow + maxInc < 0x1_0000_0000
    ensures minWindow <= Clamped(maxWindow, minWindow, maxInc, adjustment) <= maxWindow + maxInc
  {
  }

  function Times(a: real, b: real): real {
    a * b
  }

  function Product(a: real, b: real, c: real, d: real): real {
    Times(Times(Times(a, b), c), d)
  }

  lemma Shrinks(a: real, f: real)
    requires 0.0 <= a && f <= 1.0
    ensures Times(a, f) <= a && (0.0 <= f ==> 0.0 <= Times(a, f)) && (f <= 0.0 ==> Times(a, f) <= 0.0)
  {
  }

  lemma NegativeTimes(a: real, f: real)
    requires a <= 0.0 <= f
    ensures Times(a, f) <= 0.0
  {
  }

  lemma FactorsAtMostOne(a: real, x: real, y: real, z: real)
    requires 0.0 <= a && 0.0 <= x <= 1.0 && y <= 1.0 && 0.0 <= z <= 1.0
    ensures Product(x, a, y, z) <= a
  {
    Shrinks(a, x);
    assert Times(x, a) == Times(a, x);
    var b := Times(x, a);
    Shrinks(b, y);
    if y <= 0.0 {
      NegativeTimes(Times(b, y), z);
    } else {
      Shrinks(Times(b, y), z);
    }
  }

  lemma FractionAtMostOne(n: int, d: int)
    requires 0 < d && n <= d
    ensures n as real / d as real <= 1.0 && (0 <= n ==> 0.0 <= n as real / d as real)
  {
  }

  lemma TruncateAtMost(x: real, n: nat)
    requires x <= n as real
    ensures Truncate(x) <= n
  {
  }

  lemma ScaledAtMost(inc: nat, gain: real, y: real, z: real)
    requires 0.0 <= gain <= 1.0 && y <= 1.0 && 0.0 <= z <= 1.0
    ensures Truncate(Product(gain, inc as real, y, z)) <= inc
  {
    FactorsAtMostOne(inc as real, gain, y, z);
    TruncateAtMost(Product(gain, inc as real, y, z), inc);
  }

  /**
   * With a gain of at most one, a delay no smaller than the base and a packet within the flight, growth is at most one
   * increment.
   */
  lemma AdjustmentAtMostIncrement(target: u32, base: u32, delay: u32, window: u32, size: u32, maxInc: u32, gain: real,
                                  undefinedInt: int)
    requires 0.0 <= gain <= 1.0 && target > 0 && base <= delay && size <= window && window > 0
    ensures Adjustment(target, base, delay, window, size, maxInc, gain, undefinedInt) <= maxInc
  {
    var offTarget := target - (delay - base);
    FractionAtMostOne(offTarget, target);
    FractionAtMostOne(size, window);
    ScaledAtMost(maxInc, gain, offTarget as real / target as real, size as real / window as real);
  }

  // ---------------------------------------------------------------- the controller

  datatype CtrlError = InsufficientWindowSize | UnknownSeqNum | DuplicateTransmission

  datatype Record = Record(size: u32, num: u32, acked: bool)

  /** What a record contributes to the bytes in flight. */
  function InFlight(r: Record): nat {
    if r.acked then 0 else r.size
  }

  function AckedOnce(r: Record): nat {
    if r.acked then 1 else 0
  }

  /** An ack as the controller sees it; `wall` is the clock reading of the base-delay query. */
  datatype Ack = Ack(delay: int, rtt: int, receivedAt: int, wall: int)

  /** A controller after a call, and the error the call returned. */
  datatype Outcome = Outcome(ctrl: Ctrl, error: Option<CtrlError>)

  datatype Ctrl = Ctrl(
    target: u32,
    timeout: int,
    minTimeout: int,
    maxTimeout: int,
    window: u32,
    maxWindow: u32,
    minWindow: u32,
    maxInc: u32,
    gain: real,
    rtt: int,
    rttVar: int,
    tx: map<u16, Record>,
    samples: seq<Sample>,
    delayWindow: int,
    undefinedInt: int)
  {
    function BytesAvailable(): u32 {
      if maxWindow > window then maxWindow - window else 0
    }

    /** The first transmission of a packet. The record stays behind even when the window is too small. */
    function OnInitial(q: u16, size: u32): Outcome {
      if q in tx then Outcome(this, Some(DuplicateTransmission))
      else
        var c := this.(tx := tx[q := Record(size, 1, false)]);
        if Wrap32(window + size) > maxWindow then Outcome(c, Some(InsufficientWindowSize))
        else Outcome(c.(window := Wrap32(window + size)), None)
    }

    function OnRetransmission(q: u16): Outcome {
      if q !in tx then Outcome(this, Some(UnknownSeqNum))
      else
        var r := tx[q].(num := Wrap32(tx[q].num + 1));
        var c := this.(tx := tx[q := r]);
        if r.num != 1 then Outcome(c, None)
        else if Wrap32(window + r.size) > maxWindow then Outcome(c, Some(InsufficientWindowSize))
        else Outcome(c.(window := Wrap32(window + r.size)), None)
    }

    function OnAck(q: u16, ack: Ack): Outcome {
      if q !in tx then Outcome(this, Some(UnknownSeqNum))
      else if tx[q].acked then Outcome(this, None)
      else Outcome(Noted(ack).Settle(q, RawAdjustment(q, ack), ack.rtt), None)
    }

    /** The change of the window that an ack of packet q calls for, before it is clamped. */
    function RawAdjustment(q: u16, ack: Ack): int
      requires q in tx
    {
      Adjustment(target, Micros32(LeastDelay(Noted(ack).samples, ack.wall)), Micros32(ack.delay), window, tx[q].size,
                 maxInc, gain, undefinedInt)
    }

    /** With the delay of an ack among the samples. */
    function Noted(ack: Ack): Ctrl {
      this.(samples := samples + [Sample(ack.delay, ack.receivedAt + delayWindow)])
    }

    /** Takes an unacked packet out of flight after adjusting the window. */
    function Settle(q: u16, adjustment: int, packetRtt: int): Ctrl
      requires q in tx
    {
      var r := tx[q];
      var c := this.(tx := tx[q := r.(acked := true)],
                     maxWindow := Clamped(maxWindow, minWindow, maxInc, adjustment), window := Wrap32(window - r.size));
      if r.num == 1 then c.WithRtt(packetRtt) else c
    }

    /** The round-trip estimate in the units the code mixes, and the timeout clamped from it. */
    function WithRtt(packetRtt: int): Ctrl {
      var current := Quotient(rtt, 1000);
      var sample := Quotient(packetRtt, 1000);
      var var1 := Max(0, rttVar + RttVarianceAdjustment(current, rttVar, sample));
      var rtt1 := Max(Quotient(rtt, 1_000_000) + RttAdjustment(current, sample), 0);
      this.(rttVar := var1, rtt := rtt1, timeout := Min(Max(rtt1 + var1 * 4, minTimeout), maxTimeout))
    }

    function OnLost(q: u16, retransmitting: bool): Outcome {
      if q !in tx then Outcome(this, Some(UnknownSeqNum))
      else
        var c := this.(maxWindow := Max(maxWindow / 2, minWindow));
        Outcome(if retransmitting then c else c.(window := Wrap32(window - tx[q].size)), None)
    }

    function OnTimeout(): Ctrl {
      this.(maxWindow := minWindow, timeout := Min(timeout * 2, maxTimeout))
    }

    /** Window arithmetic cannot reach 2^32 even if every sequence number is acked. */
    predicate Fits() {
      minWindow + maxInc * 0x1_0001 < 0x1_0000_0000
    }

    ghost function Ceiling(): int {
      minWindow + maxInc * MapSum(tx, AckedOnce)
    }

    /** The bytes in flight are the sizes of the unacked records. */
    ghost predicate Balanced() {
      window == MapSum(tx, InFlight)
    }

    ghost predicate Valid() {
      && Fits()
      && Balanced()
      && minWindow <= maxWindow <= Ceiling()
      && window <= Ceiling()
      && forall q :: q in tx ==> tx[q].num >= 1
    }
  }

  // ---------------------------------------------------------------- bounds

  lemma {:induction false} AckedAtMostRecords(tx: map<u16, Record>)
    ensures MapSum(tx, AckedOnce) <= |tx|
    decreases |tx|
  {
    if tx != map[] {
      var q := Pick(tx.Keys);
      MapSumRemove(tx, AckedOnce, q);
      AckedAtMostRecords(tx - {q});
    }
  }

  lemma Below32(minWindow: nat, maxInc: nat, n: nat)
    requires n <= 0x1_0000 && minWindow + maxInc * 0x1_0001 < 0x1_0000_0000
    ensures minWindow + maxInc * n + maxInc < 0x1_0000_0000
  {
    assert maxInc * n <= maxInc * 0x1_0000;
  }

  /** Neither window nor maximum window comes within an increment of the 32-bit limit. */
  lemma CeilingFits(c: Ctrl)
    requires c.Fits()
    ensures c.Ceiling() + c.maxInc < 0x1_0000_0000
  {
    AckedAtMostRecords(c.tx);
    SizeBelow(c.tx.Keys, 0x1_0000);
    Below32(c.minWindow, c.maxInc, MapSum(c.tx, AckedOnce));
  }

  // ---------------------------------------------------------------- what each call keeps

  lemma InitialKeeps(c: Ctrl, q: u16, size: u32)
    requires c.Valid() && q !in c.tx && c.window + size <= c.maxWindow
    ensures c.OnInitial(q, size).error.None? && c.OnInitial(q, size).ctrl.Valid()
    ensures c.OnInitial(q, size).ctrl == c.(tx := c.tx[q := Record(size, 1, false)], window := c.window + size)
  {
    MapSumUpdate(c.tx, InFlight, q, Record(size, 1, false));
    MapSumUpdate(c.tx, AckedOnce, q, Record(size, 1, false));
  }

  /**
   * A first transmission keeps the flight balanced exactly when it fits the window or carries no bytes:
   * a rejected packet leaves its record in the table although its bytes were never counted.
   */
  lemma InitialBalancedIff(c: Ctrl, q: u16, size: u32)
    requires c.Valid() && q !in c.tx
    ensures c.OnInitial(q, size).ctrl.Balanced() <==> c.window + size <= c.maxWindow || size == 0
  {
    MapSumUpdate(c.tx, InFlight, q, Record(size, 1, false));
  }

  lemma RetransmissionKeeps(c: Ctrl, q: u16)
    requires c.Valid() && q in c.tx && c.tx[q].num < 0xFFFF_FFFF
    ensures c.OnRetransmission(q).error.None? && c.OnRetransmission(q).ctrl.Valid()
    ensures c.OnRetransmission(q).ctrl == c.(tx := c.tx[q := c.tx[q].(num := c.tx[q].num + 1)])
  {
    var r := c.tx[q].(num := c.tx[q].num + 1);
    MapSumUpdate(c.tx, InFlight, q, r);
    MapSumUpdate(c.tx, AckedOnce, q, r);
  }

  /**
   * A retransmission keeps the flight balanced exactly unless it counts the packet again: after 2^32 transmissions the
   * counter has wrapped to zero, and the next one passes for the first.
   */
  lemma RetransmissionBalancedIff(c: Ctrl, q: u16)
    requires c.Balanced() && q in c.tx
    ensures c.OnRetransmission(q).ctrl.Balanced() <==>
            c.tx[q].num != 0 || c.tx[q].size == 0 || Wrap32(c.window + c.tx[q].size) > c.maxWindow
  {
    MapSumUpdate(c.tx, InFlight, q, c.tx[q].(num := Wrap32(c.tx[q].num + 1)));
  }

  lemma NextCeiling(minWindow: int, maxInc: int, n: int)
    ensures minWindow + maxInc * (n + 1) == minWindow + maxInc * n + maxInc
  {
  }

  /** Whatever the adjustment: an unacked record's bytes leave the flight and the ceiling rises by one increment. */
  lemma SettleKeeps(c: Ctrl, q: u16, adjustment: int, packetRtt: int)
    requires c.Valid() && q in c.tx && !c.tx[q].acked
    ensures c.Settle(q, adjustment, packetRtt).Valid()
    ensures c.Settle(q, adjustment, packetRtt).tx == c.tx[q := c.tx[q].(acked := true)]
    ensures c.Settle(q, adjustment, packetRtt).window == c.window - c.tx[q].size
  {
    var r := c.tx[q].(acked := true);
    MapSumAtLeast(c.tx, InFlight, q);
    MapSumUpdate(c.tx, InFlight, q, r);
    MapSumUpdate(c.tx, AckedOnce, q, r);
    SettledIsValid(c, c.Settle(q, adjustment, packetRtt), q, adjustment);
  }

  lemma SettledIsValid(c: Ctrl, d: Ctrl, q: u16, adjustment: int)
    requires c.Valid() && q in c.tx && d.tx == c.tx[q := c.tx[q].(acked := true)]
    requires d.minWindow == c.minWindow && d.maxInc == c.maxInc
    requires d.maxWindow == Clamped(c.maxWindow, c.minWindow, c.maxInc, adjustment)
    requires d.window == c.window - c.tx[q].size == MapSum(d.tx, InFlight)
    requires MapSum(d.tx, AckedOnce) == MapSum(c.tx, AckedOnce) + 1
    ensures d.Valid()
  {
    CeilingFits(c);
    ClampHolds(c.maxWindow, c.minWindow, c.maxInc, adjustment);
    NextCeiling(c.minWindow, c.maxInc, MapSum(c.tx, AckedOnce));
  }

  lemma NotedIsValid(c: Ctrl, ack: Ack)
    requires c.Valid()
    ensures c.Noted(ack).Valid()
  {
    assert c.Noted(ack).Ceiling() == c.Ceiling();
  }

  /** The first ack of a record takes exactly its bytes out of flight; later acks change nothing. */
  lemma AckKeeps(c: Ctrl, q: u16, ack: Ack)
    requires c.Valid() && q in c.tx
    ensures c.OnAck(q, ack).error.None? && c.OnAck(q, ack).ctrl.Valid()
    ensures c.OnAck(q, ack).ctrl.tx == c.tx[q := c.tx[q].(acked := true)]
    ensures c.OnAck(q, ack).ctrl.window == c.window - InFlight(c.tx[q])
  {
    if c.tx[q].acked {
      assert c.tx[q := c.tx[q].(acked := true)] == c.tx;
    } else {
      NotedIsValid(c, ack);
      SettleKeeps(c.Noted(ack), q, c.RawAdjustment(q, ack), ack.rtt);
    }
  }

  /** A loss at least halves the maximum window, down to the minimum, and nothing leaves the flight. */
  lemma LostKeeps(c: Ctrl, q: u16)
    requires c.Valid()
    ensures c.OnLost(q, true).error.None? <==> q in c.tx
    ensures var d := c.OnLost(q, true).ctrl;
            && d.Valid() && d.tx == c.tx && d.window == c.window
            && (q in c.tx ==> d.maxWindow == c.minWindow || d.maxWindow * 2 <= c.maxWindow <= d.maxWindow * 2 + 1)
            && (q !in c.tx ==> d == c)
  {
  }

  /** A timeout leaves the minimum window and the flight, and at least the old timeout unless that was too long. */
  lemma TimeoutKeeps(c: Ctrl)
    requires c.Valid()
    ensures var d := c.OnTimeout();
            && d.Valid() && d.tx == c.tx && d.window == c.window && d.maxWindow == c.minWindow
            && d.timeout <= c.maxTimeout && (0 <= c.timeout <= c.maxTimeout ==> c.timeout <= d.timeout)
  {
    var d := c.OnTimeout();
    assert d.Ceiling() == c.Ceiling();
  }

  lemma MicrosMonotone(a: int, b: int)
    requires 0 <= a <= b < 0x1_0000_0000 * 1000
    ensures Micros32(a) <= Micros32(b)
  {
  }

  /** A delay as it comes off the wire: up to 2^32 microseconds. */
  predicate OnTheWire(delay: int) {
    0 <= delay < 0x1_0000_0000 * 1000
  }

  predicate Sampled(samples: seq<Sample>) {
    forall s :: s in samples ==> OnTheWire(s.value)
  }

  /**
   * The raw adjustment for a packet in flight is at most one increment, because the base delay includes the packet's
   * own sample and the packet is part of the flight.
   */
  lemma GrowthLimit(c: Ctrl, q: u16, ack: Ack)
    requires c.Valid() && q in c.tx && !c.tx[q].acked && 0.0 <= c.gain <= 1.0 && c.target > 0 && c.window > 0
    requires ack.wall <= ack.receivedAt + c.delayWindow && OnTheWire(ack.delay) && Sampled(c.samples)
    ensures c.RawAdjustment(q, ack) <= c.maxInc
  {
    var own := Sample(ack.delay, ack.receivedAt + c.delayWindow);
    var samples := c.samples + [own];
    MinUnexpiredIsMinimum(samples, ack.wall);
    assert own in samples;
    var base := LeastDelay(samples, ack.wall);
    MicrosMonotone(base, ack.delay);
    MapSumAtLeast(c.tx, InFlight, q);
    AdjustmentAtMostIncrement(c.target, Micros32(base), Micros32(ack.delay), c.window, c.tx[q].size, c.maxInc, c.gain,
      c.undefinedInt);
  }

  // ---------------------------------------------------------------- whole runs

  datatype Event = Send(q: u16, size: u32) | Resend(q: u16) | Settled(q: u16, ack: Ack) | Lost(q: u16) | TimedOut

  /** The calls `sentPackets` makes: fresh numbers within the window, known numbers, and counters that do not wrap. */
  predicate Allowed(c: Ctrl, e: Event) {
    match e
    case Send(q, size) => q !in c.tx && c.window + size <= c.maxWindow
    case Resend(q) => q in c.tx && c.tx[q].num < 0xFFFF_FFFF
    case Settled(q, _) => true
    case Lost(q) => true
    case TimedOut => true
  }

  function Apply(c: Ctrl, e: Event): Ctrl {
    match e
    case Send(q, size) => c.OnInitial(q, size).ctrl
    case Resend(q) => c.OnRetransmission(q).ctrl
    case Settled(q, ack) => c.OnAck(q, ack).ctrl
    case Lost(q) => c.OnLost(q, true).ctrl
    case TimedOut => c.OnTimeout()
  }

  lemma ApplyKeeps(c: Ctrl, e: Event)
    requires c.Valid() && Allowed(c, e)
    ensures Apply(c, e).Valid()
  {
    match e
    case Send(q, size) => InitialKeeps(c, q, size);
    case Resend(q) => RetransmissionKeeps(c, q);
    case Settled(q, ack) => if q in c.tx { AckKeeps(c, q, ack); }
    case Lost(q) => if q in c.tx { LostKeeps(c, q); }
    case TimedOut => TimeoutKeeps(c);
  }

  predicate IsRun(run: seq<Ctrl>, events: seq<Event>) {
    && |run| == |events| + 1
    && forall i :: 0 <= i < |events| ==> Allowed(run[i], events[i]) && run[i + 1] == Apply(run[i], events[i])
  }

  /** A controller as a connection configures it. */
  function Configured(maxPacketSize: u16, target: u32, initialTimeout: int, minTimeout: int, maxTimeout: int,
                      undefinedInt: int): Ctrl {
    Ctrl(target, initialTimeout, minTimeout, maxTimeout, 0, 2 * maxPacketSize, 2 * maxPacketSize, 1024, 1.0,
         0, 0, map[], [], 120_000_000_000, undefinedInt)
  }

  lemma ConfiguredIsValid(maxPacketSize: u16, target: u32, initialTimeout: int, minTimeout: int, maxTimeout: int,
                          undefinedInt: int)
    ensures Configured(maxPacketSize, target, initialTimeout, minTimeout, maxTimeout, undefinedInt).Valid()
    ensures Limited(Configured(maxPacketSize, target, initialTimeout, minTimeout, maxTimeout, undefinedInt),
            120_000_000_000)
  {
  }

  /**
   * In every run of a configured controller the flight is balanced, so it never underflows, and both
   * the flight and the maximum window stay below minimum + increment * (acked packets), itself below 2^32.
   */
  lemma {:induction false} FlightIsBalancedAndBounded(run: seq<Ctrl>, events: seq<Event>)
    requires IsRun(run, events) && run[0].Valid()
    ensures forall i :: 0 <= i < |run| ==>
              && run[i].Balanced() && run[i].minWindow <= run[i].maxWindow <= run[i].Ceiling()
              && run[i].window <= run[i].Ceiling() < 0x1_0000_0000
    decreases |events|
  {
    if events == [] {
      CeilingFits(run[0]);
    } else {
      CeilingFits(run[0]);
      ApplyKeeps(run[0], events[0]);
      assert IsRun(run[1..], events[1..]) by {
        forall i | 0 <= i < |events[1..]|
          ensures Allowed(run[1..][i], events[1..][i]) && run[1..][i + 1] == Apply(run[1..][i], events[1..][i])
        {
          assert events[1..][i] == events[i + 1] && run[1..][i] == run[i + 1] && run[1..][i + 1] == run[(i + 1) + 1];
        }
      }
      FlightIsBalancedAndBounded(run[1..], events[1..]);
      forall i | 0 <= i < |run|
        ensures && run[i].Balanced() && run[i].minWindow <= run[i].maxWindow <= run[i].Ceiling()
                && run[i].window <= run[i].Ceiling() < 0x1_0000_0000
      {
        if i > 0 {
          assert run[i] == run[1..][i - 1];
        }
      }
    }
  }

  /** An ack whose delay came off the wire, handled before its own sample expires. */
  predicate Prompt(e: Event, delayWindow: int) {
    e.Settled? ==> OnTheWire(e.ack.delay) && e.ack.wall <= e.ack.receivedAt + delayWindow
  }

  /** What the growth limit needs of a controller, and every call keeps. */
  ghost predicate Limited(c: Ctrl, delayWindow: int) {
    c.Valid() && Sampled(c.samples) && 0.0 <= c.gain <= 1.0 && c.delayWindow == delayWindow
  }

  lemma ApplyStaysLimited(c: Ctrl, e: Event, delayWindow: int)
    requires Limited(c, delayWindow) && Allowed(c, e) && Prompt(e, delayWindow)
    ensures Limited(Apply(c, e), delayWindow)
  {
    ApplyKeeps(c, e);
  }

  lemma {:induction false} RunStaysLimited(run: seq<Ctrl>, events: seq<Event>, i: nat)
    requires IsRun(run, events) && Limited(run[0], run[0].delayWindow) && i < |run|
    requires forall k :: 0 <= k < |events| ==> Prompt(events[k], run[0].delayWindow)
    ensures Limited(run[i], run[0].delayWindow)
  {
    if i > 0 {
      RunStaysLimited(run, events, i - 1);
      assert run[(i - 1) + 1] == Apply(run[i - 1], events[i - 1]);
      ApplyStaysLimited(run[i - 1], events[i - 1], run[0].delayWindow);
    }
  }

  /**
   * The growth limit of section 2.4.2 of RFC 6817, in every run of a configured controller: whenever a packet in flight
   * is acked, the raw adjustment is at most one increment, as long as the float division is defined.
   */
  lemma GrowthLimitInRuns(run: seq<Ctrl>, events: seq<Event>, i: nat)
    requires IsRun(run, events) && Limited(run[0], run[0].delayWindow)
    requires forall k :: 0 <= k < |events| ==> Prompt(events[k], run[0].delayWindow)
    requires i < |events| && events[i].Settled? && events[i].q in run[i].tx && !run[i].tx[events[i].q].acked
    requires run[i].target > 0 && run[i].window > 0
    ensures run[i].RawAdjustment(events[i].q, events[i].ack) <= run[i].maxInc
  {
    RunStaysLimited(run, events, i);
    GrowthLimit(run[i], events[i].q, events[i].ack);
  }

  /** Samples that are all alike are no delay at all: the adjustment is that of a path without queues. */
  lemma EqualDelaysAreNone(c: Ctrl, q: u16, ack: Ack)
    requires q in c.tx && ack.wall <= ack.receivedAt + c.delayWindow
    requires forall s :: s in c.samples ==> s.value == ack.delay
    ensures c.RawAdjustment(q, ack) ==
            Adjustment(c.target, 0, 0, c.window, c.tx[q].size, c.maxInc, c.gain, c.undefinedInt)
  {
    var own := Sample(ack.delay, ack.receivedAt + c.delayWindow);
    MinUnexpiredIsMinimum(c.samples + [own], ack.wall);
    assert own in c.samples + [own];
  }

  // ---------------------------------------------------------------- the first ack

  lemma LeastOfOne(s: Sample, now: int)
    requires now <= s.deadline
    ensures LeastDelay([s], now) == s.value
  {
    assert MinUnexpired([s][..0], now) == None;
  }

  lemma WholeFraction(n: int)
    requires n > 0
    ensures n as real / n as real == 1.0
  {
  }

  lemma WholeProduct(n: nat)
    ensures Truncate(Product(1.0, n as real, 1.0, 1.0)) == n
  {
    assert Times(1.0, n as real) == n as real;
    assert Times(n as real, 1.0) == n as real;
  }

  /** The first ack, for all that is in flight, calls for a whole increment, whatever delay it reports. */
  lemma WholeIncrement(c: Ctrl, q: u16, ack: Ack)
    requires q in c.tx && c.tx[q].size == c.window > 0 && c.samples == [] && c.gain == 1.0 && c.target > 0
    requires ack.wall <= ack.receivedAt + c.delayWindow
    ensures c.RawAdjustment(q, ack) == c.maxInc
  {
    var own := Sample(ack.delay, ack.receivedAt + c.delayWindow);
    assert c.Noted(ack).samples == [own];
    LeastOfOne(own, ack.wall);
    WholeFraction(c.target);
    WholeFraction(c.window);
    WholeProduct(c.maxInc);
  }

  /** What a controller is configured with. */
  predicate SameSettings(c: Ctrl, d: Ctrl) {
    && d.target == c.target && d.minWindow == c.minWindow && d.maxInc == c.maxInc && d.gain == c.gain
    && d.delayWindow == c.delayWindow
  }

  lemma SettledGrows(c: Ctrl, q: u16, adjustment: int, packetRtt: int)
    requires q in c.tx && c.tx[q].size == c.window && adjustment == c.maxInc
    requires c.minWindow <= c.maxWindow && c.maxWindow + c.maxInc < 0x1_0000_0000
    ensures var d := c.Settle(q, adjustment, packetRtt);
            && d.window == 0 && d.maxWindow == c.maxWindow + c.maxInc && SameSettings(c, d)
            && d.tx == c.tx[q := c.tx[q].(acked := true)]
  {
  }

  /** So the window grows by it. */
  lemma WindowGrows(c: Ctrl, q: u16, ack: Ack)
    requires q in c.tx && !c.tx[q].acked && c.tx[q].size == c.window > 0 && c.samples == [] && c.gain == 1.0
    requires c.target > 0 && ack.wall <= ack.receivedAt + c.delayWindow
    requires c.minWindow <= c.maxWindow && c.maxWindow + c.maxInc < 0x1_0000_0000
    ensures var d := c.OnAck(q, ack).ctrl;
            && d.window == 0 && d.maxWindow == c.maxWindow + c.maxInc && SameSettings(c, d)
            && d.tx == c.tx[q := c.tx[q].(acked := true)]
  {
    WholeIncrement(c, q, ack);
    SettledGrows(c.Noted(ack), q, c.RawAdjustment(q, ack), ack.rtt);
  }

  // ---------------------------------------------------------------- the object

  class Controller {
    const target: u32
    const minTimeout: int
    const maxTimeout: int
    const minWindow: u32
    const maxInc: u32
    const gain: real
    const undefinedInt: int
    const delayAcc: DelayAccumulator
    var timeout: int
    var window: u32
    var maxWindow: u32
    var rtt: int
    var rttVar: int
    var transmissions: map<u16, Record>

    ghost function State(): Ctrl
      reads this, delayAcc
    {
      Ctrl(target, timeout, minTimeout, maxTimeout, window, maxWindow, minWindow, maxInc, gain, rtt, rttVar,
           transmissions, delayAcc.pushed, delayAcc.window, undefinedInt)
    }

    /** The heap is sound and was last read no later than `now`. */
    ghost predicate ReadableAt(now: int)
      reads this, delayAcc
    {
      delayAcc.Valid() && delayAcc.lastRead <= now
    }

    constructor (maxPacketSize: u16, target: u32, initialTimeout: int, minTimeout: int, maxTimeout: int,
                 undefinedInt: int, ghost start: int)
      ensures State() == Configured(maxPacketSize, target, initialTimeout, minTimeout, maxTimeout, undefinedInt)
      ensures fresh(delayAcc) && ReadableAt(start) && State().Valid()
    {
      this.target, this.minTimeout, this.maxTimeout, this.undefinedInt := target, minTimeout, maxTimeout, undefinedInt;
      minWindow, maxInc, gain := 2 * maxPacketSize, 1024, 1.0;
      timeout, window, maxWindow, rtt, rttVar, transmissions := initialTimeout, 0, 2 * maxPacketSize, 0, 0, map[];
      delayAcc := new DelayAccumulator(120_000_000_000, start);
      ConfiguredIsValid(maxPacketSize, target, initialTimeout, minTimeout, maxTimeout, undefinedInt);
    }

    method BytesAvailableInWindow() returns (n: u32)
      ensures n == State().BytesAvailable()
    {
      if maxWindow > window {
        return maxWindow - window;
      }
      return 0;
    }

    method OnTransmit(q: u16, initial: bool, size: u32) returns (error: Option<CtrlError>)
      modifies this
      ensures Outcome(State(), error) ==
              if initial then old(State()).OnInitial(q, size) else old(State()).OnRetransmission(q)
    {
      var packet: Record;
      if initial {
        if q in transmissions {
          return Some(DuplicateTransmission);
        }
        packet := Record(size, 1, false);
      } else {
        if q !in transmissions {
          return Some(UnknownSeqNum);
        }
        packet := transmissions[q].(num := Wrap32(transmissions[q].num + 1));
      }
      transmissions := transmissions[q := packet];
      if packet.num == 1 {
        if Wrap32(window + packet.size) > maxWindow {
          return Some(InsufficientWindowSize);
        }
        window := Wrap32(window + packet.size);
      }
      return None;
    }

    method OnAck(q: u16, ack: Ack) returns (error: Option<CtrlError>)
      requires ReadableAt(ack.wall)
      modifies this, delayAcc
      ensures ReadableAt(ack.wall) && Outcome(State(), error) == old(State()).OnAck(q, ack)
    {
      if q !in transmissions {
        return Some(UnknownSeqNum);
      }
      if transmissions[q].acked {
        return None;
      }
      var base := NoteDelay(ack);
      var adjustment := Adjustment(target, Micros32(base), Micros32(ack.delay), window, transmissions[q].size,
                                   maxInc, gain, undefinedInt);
      assert adjustment == old(State()).RawAdjustment(q, ack);
      Settle(q, adjustment, ack.rtt);
      return None;
    }

    /** Pushes the delay of an ack and reads the least one. */
    method NoteDelay(ack: Ack) returns (base: int)
      requires ReadableAt(ack.wall)
      modifies delayAcc
      ensures ReadableAt(ack.wall) && State() == old(State()).Noted(ack)
      ensures base == LeastDelay(State().samples, ack.wall)
    {
      delayAcc.Push(ack.delay, ack.receivedAt);
      base := delayAcc.BaseDelay(ack.wall);
    }

    method Settle(q: u16, adjustment: int, packetRtt: int)
      requires q in transmissions
      modifies this
      ensures State() == old(State()).Settle(q, adjustment, packetRtt)
    {
      var packet := transmissions[q].(acked := true);
      transmissions := transmissions[q := packet];
      maxWindow := Clamped(maxWindow, minWindow, maxInc, adjustment);
      window := Wrap32(window - packet.size);
      if packet.num == 1 {
        UpdateRtt(packetRtt);
      }
    }

    method UpdateRtt(packetRtt: int)
      modifies this`rtt, this`rttVar, this`timeout
      ensures State() == old(State()).WithRtt(packetRtt)
    {
      var current := Quotient(rtt, 1000);
      var sample := Quotient(packetRtt, 1000);
      rttVar := Max(0, rttVar + RttVarianceAdjustment(current, rttVar, sample));
      rtt := Max(Quotient(rtt, 1_000_000) + RttAdjustment(current, sample), 0);
      timeout := Max(rtt + rttVar * 4, minTimeout);
      timeout := Min(timeout, maxTimeout);
    }

    method OnLostPacket(q: u16, retransmitting: bool) returns (error: Option<CtrlError>)
      modifies this
      ensures Outcome(State(), error) == old(State()).OnLost(q, retransmitting)
    {
      if q !in transmissions {
        return Some(UnknownSeqNum);
      }
      maxWindow := Max(maxWindow / 2, minWindow);
      if !retransmitting {
        window := Wrap32(window - transmissions[q].size);
      }
      return None;
    }

    method OnTimeout()
      modifies this
      ensures State() == old(State()).OnTimeout()
    {
      maxWindow := minWindow;
      timeout := Min(timeout * 2, maxTimeout);
    }
  }
}
