/** How the controller answers to the delays it is told: the window, and the round-trip estimate. */
module Ledbat {
  import opened Words
  import opened Congestion

  // ---------------------------------------------------------------- the law of the window

  lemma FractionTimes(n: int, d: int)
    requires d > 0
    ensures n as real / d as real * d as real == n as real
  {
  }

  lemma Regroup(g: real, m: real, u: real, v: real, b: real, y: real)
    ensures Product(g, m, u, v) * (b * y) == (g * m) * ((u * b) * (v * y))
  {
  }

  lemma WithoutFractions(g: real, m: int, a: int, b: int, x: int, y: int)
    requires b > 0 && y > 0
    ensures Times(Product(g, m as real, a as real / b as real, x as real / y as real), (b * y) as real) ==
            g * (m * a * x) as real
  {
    var u, v := a as real / b as real, x as real / y as real;
    FractionTimes(a, b);
    FractionTimes(x, y);
    Regroup(g, m as real, u, v, b as real, y as real);
    assert (m * a * x) as real == m as real * (a as real * x as real);
    assert g * (m as real * (a as real * x as real)) == (g * m as real) * (a as real * x as real);
  }

  /** Truncation stays within one, on the side of zero. */
  lemma TruncateIsNear(x: real)
    ensures x >= 0.0 ==> 0 <= Truncate(x) && Truncate(x) as real <= x < Truncate(x) as real + 1.0
    ensures x <= 0.0 ==> Truncate(x) <= 0 && Truncate(x) as real - 1.0 < x <= Truncate(x) as real
  {
  }

  lemma Scaled(x: real, y: real, d: real)
    requires d > 0.0
    ensures x <= y <==> Times(x, d) <= Times(y, d)
    ensures x < y <==> Times(x, d) < Times(y, d)
  {
    if x < y {
      assert (y - x) * d > 0.0;
    } else if y < x {
      assert (x - y) * d > 0.0;
    }
  }

  lemma OneMore(x: real, d: real)
    ensures Times(x + 1.0, d) == Times(x, d) + d && Times(x - 1.0, d) == Times(x, d) - d && Times(0.0, d) == 0.0
  {
  }

  /** a is the quotient of the two numbers, truncated toward zero. */
  predicate IsQuotient(a: int, n: real, d: real) {
    && (n >= 0.0 ==> 0 <= a && Times(a as real, d) <= n < Times(a as real, d) + d)
    && (n <= 0.0 ==> a <= 0 && Times(a as real, d) - d < n <= Times(a as real, d))
  }

  lemma TruncateIsQuotient(x: real, n: real, d: real)
    requires d > 0.0 && Times(x, d) == n
    ensures IsQuotient(Truncate(x), n, d)
  {
    var a := Truncate(x) as real;
    TruncateIsNear(x);
    OneMore(a, d);
    OneMore(0.0, d);
    Scaled(0.0, x, d);
    Scaled(x, 0.0, d);
    Scaled(a, x, d);
    Scaled(x, a, d);
    Scaled(x, a + 1.0, d);
    Scaled(a - 1.0, x, d);
  }

  lemma Positive(a: int, b: int)
    requires a > 0 && b > 0
    ensures a * b > 0
  {
  }

  /**
   * The law of section 2.4.2 of RFC 6817: the window changes by one increment, in proportion to how far the queueing
   * delay is below the target (or, if it is above, downwards), and to the packet's share of what is in flight.
   */
  predicate Follows(a: int, gain: real, maxInc: nat, offTarget: int, target: nat, size: nat, window: nat) {
    IsQuotient(a, gain * (maxInc * offTarget * size) as real, (target * window) as real)
  }

  lemma ChangeFollows(gain: real, maxInc: nat, offTarget: int, target: nat, size: nat, window: nat)
    requires target > 0 && window > 0
    ensures var a := Change(gain, maxInc, offTarget, target, size, window);
            Follows(a, gain, maxInc, offTarget, target, size, window)
  {
    Positive(target, window);
    WithoutFractions(gain, maxInc, offTarget, target, size, window);
    TruncateIsQuotient(Product(gain, maxInc as real, offTarget as real / target as real, size as real / window as real),
      gain * (maxInc * offTarget * size) as real, (target * window) as real);
  }

  lemma AdjustmentIsChange(target: u32, base: u32, delay: u32, window: u32, size: u32, maxInc: u32, gain: real,
                           undefinedInt: int, offTarget: int)
    requires target > 0 && window > 0 && offTarget == target - (delay - base)
    ensures Adjustment(target, base, delay, window, size, maxInc, gain, undefinedInt) ==
            Change(gain, maxInc, offTarget, target, size, window)
  {
  }

  lemma AdjustmentLaw(target: u32, base: u32, delay: u32, window: u32, size: u32, maxInc: u32, gain: real,
                      undefinedInt: int, offTarget: int)
    requires target > 0 && window > 0 && offTarget == target - (delay - base)
    ensures Follows(Adjustment(target, base, delay, window, size, maxInc, gain, undefinedInt), gain, maxInc, offTarget,
                    target, size, window)
  {
    AdjustmentIsChange(target, base, delay, window, size, maxInc, gain, undefinedInt, offTarget);
    ChangeFollows(gain, maxInc, offTarget, target, size, window);
  }

  lemma WholeApart(a: int, b: int, d: real)
    requires b < a && d > 0.0
    ensures Times(b as real, d) + d <= Times(a as real, d)
  {
    Scaled(b as real + 1.0, a as real, d);
    OneMore(b as real, d);
  }

  /** A quotient does not grow when the number does not. */
  lemma QuotientIsMonotone(a: int, m: real, b: int, n: real, d: real)
    requires d > 0.0 && IsQuotient(a, m, d) && IsQuotient(b, n, d) && m <= n
    ensures a <= b
  {
    if b < a {
      WholeApart(a, b, d);
    }
  }

  lemma MoreIsMore(gain: real, k: nat, x: int, y: int, size: nat)
    requires gain >= 0.0 && x <= y
    ensures gain * (k * x * size) as real <= gain * (k * y * size) as real
  {
    assert k * x <= k * y;
    assert (k * x) * size <= (k * y) * size;
    var low, high := (k * x * size) as real, (k * y * size) as real;
    assert gain * (high - low) >= 0.0;
  }

  /** The further off the target, the smaller the change. */
  lemma LawIsMonotone(a: int, b: int, gain: real, maxInc: nat, x: int, y: int, target: nat, size: nat, window: nat)
    requires gain >= 0.0 && target > 0 && window > 0 && x <= y
    requires Follows(a, gain, maxInc, x, target, size, window) && Follows(b, gain, maxInc, y, target, size, window)
    ensures a <= b
  {
    MoreIsMore(gain, maxInc, x, y, size);
    Positive(target, window);
    QuotientIsMonotone(a, gain * (maxInc * x * size) as real, b, gain * (maxInc * y * size) as real,
      (target * window) as real);
  }

  lemma NothingOffIsNothing(gain: real, maxInc: nat, target: nat, size: nat, window: nat)
    requires target > 0 && window > 0
    ensures Follows(0, gain, maxInc, 0, target, size, window)
  {
    Positive(target, window);
    assert maxInc * 0 * size == 0;
  }

  /** Above the target the change is downwards, below it upwards. */
  lemma LawHasSign(a: int, gain: real, maxInc: nat, offTarget: int, target: nat, size: nat, window: nat)
    requires gain >= 0.0 && target > 0 && window > 0 && Follows(a, gain, maxInc, offTarget, target, size, window)
    ensures (offTarget <= 0 ==> a <= 0) && (offTarget >= 0 ==> a >= 0)
  {
    NothingOffIsNothing(gain, maxInc, target, size, window);
    if offTarget <= 0 {
      LawIsMonotone(a, 0, gain, maxInc, offTarget, 0, target, size, window);
    }
    if offTarget >= 0 {
      LawIsMonotone(0, a, gain, maxInc, 0, offTarget, target, size, window);
    }
  }

  // ---------------------------------------------------------------- acks

  /** The smallest delay told that has not expired, the ack's own included. */
  predicate IsBase(c: Ctrl, ack: Ack, base: Sample) {
    var samples := c.samples + [Sample(ack.delay, ack.receivedAt + c.delayWindow)];
    && base in samples && ack.wall <= base.deadline
    && forall s :: s in samples && ack.wall <= s.deadline ==> base.value <= s.value
  }

  lemma BaseExists(c: Ctrl, ack: Ack) returns (base: Sample)
    requires ack.wall <= ack.receivedAt + c.delayWindow
    ensures IsBase(c, ack, base)
    ensures Sampled(c.samples) && OnTheWire(ack.delay) ==> OnTheWire(base.value)
  {
    var own := Sample(ack.delay, ack.receivedAt + c.delayWindow);
    var samples := c.samples + [own];
    MinUnexpiredIsMinimum(samples, ack.wall);
    assert own in samples;
    base :| base in samples && ack.wall <= base.deadline && base.value == MinUnexpired(samples, ack.wall).value;
  }

  lemma BaseIsLeast(c: Ctrl, ack: Ack, base: Sample)
    requires IsBase(c, ack, base)
    ensures LeastDelay(c.Noted(ack).samples, ack.wall) == base.value
  {
    MinUnexpiredIsUnique(c.Noted(ack).samples, ack.wall, base);
  }

  lemma MicrosOnTheWire(delay: int)
    requires OnTheWire(delay)
    ensures Micros32(delay) == delay / 1000
  {
  }

  /** How far the queueing delay that an ack reports is below the target: its delay beyond the smallest one told. */
  function OffTarget(c: Ctrl, ack: Ack, base: Sample): int {
    c.target - (ack.delay / 1000 - base.value / 1000)
  }

  /** The law for an ack. */
  lemma AckLaw(c: Ctrl, q: u16, ack: Ack, base: Sample)
    requires q in c.tx && c.target > 0 && c.window > 0 && IsBase(c, ack, base)
    requires OnTheWire(ack.delay) && OnTheWire(base.value)
    ensures var a := c.RawAdjustment(q, ack);
            Follows(a, c.gain, c.maxInc, OffTarget(c, ack, base), c.target, c.tx[q].size, c.window)
  {
    BaseIsLeast(c, ack, base);
    MicrosOnTheWire(ack.delay);
    MicrosOnTheWire(base.value);
    AdjustmentLaw(c.target, Micros32(base.value), Micros32(ack.delay), c.window, c.tx[q].size, c.maxInc, c.gain,
      c.undefinedInt, OffTarget(c, ack, base));
  }

  /** From w to w1 by the change a, but never below the minimum nor up by more than one increment. */
  predicate Moves(w: int, w1: int, a: int, minWindow: int, maxInc: int) {
    && (minWindow <= w + a && a <= maxInc ==> w1 == w + a)
    && (w + a < minWindow ==> w1 == minWindow)
    && (minWindow <= w + a && maxInc < a ==> w1 == w + maxInc)
  }

  lemma SettleMoves(c: Ctrl, q: u16, a: int, packetRtt: int)
    requires q in c.tx && c.minWindow <= c.maxWindow && c.maxWindow + c.maxInc < 0x1_0000_0000
    ensures Moves(c.maxWindow, c.Settle(q, a, packetRtt).maxWindow, a, c.minWindow, c.maxInc)
  {
  }

  /** The first ack of a packet moves the maximum window by what the law gives; no other ack moves it. */
  lemma AckMovesWindow(c: Ctrl, q: u16, ack: Ack, base: Sample) returns (a: int)
    requires c.minWindow <= c.maxWindow && c.maxWindow + c.maxInc < 0x1_0000_0000
    requires q in c.tx && c.target > 0 && c.window > 0 && IsBase(c, ack, base)
    requires OnTheWire(ack.delay) && OnTheWire(base.value)
    ensures Follows(a, c.gain, c.maxInc, OffTarget(c, ack, base), c.target, c.tx[q].size, c.window)
    ensures !c.tx[q].acked ==> Moves(c.maxWindow, c.OnAck(q, ack).ctrl.maxWindow, a, c.minWindow, c.maxInc)
    ensures c.tx[q].acked ==> c.OnAck(q, ack).ctrl == c
  {
    a := c.RawAdjustment(q, ack);
    AckLaw(c, q, ack, base);
    SettleMoves(c.Noted(ack), q, a, ack.rtt);
  }

  /** An ack that reports a queue longer than the target, by some delay told that has not expired. */
  predicate Queueing(c: Ctrl, ack: Ack, s: Sample) {
    s in c.samples && ack.wall <= s.deadline && ack.delay / 1000 - s.value / 1000 > c.target
  }

  lemma QueueingIsOffTarget(c: Ctrl, ack: Ack, s: Sample, base: Sample)
    requires Queueing(c, ack, s) && IsBase(c, ack, base)
    ensures OffTarget(c, ack, base) < 0
  {
    assert s in c.samples + [Sample(ack.delay, ack.receivedAt + c.delayWindow)];
  }

  /** A queueing delay above the target never raises the window. */
  lemma QueuesNeverRaise(c: Ctrl, q: u16, ack: Ack, s: Sample)
    requires c.minWindow <= c.maxWindow && c.maxWindow + c.maxInc < 0x1_0000_0000 && c.gain >= 0.0
    requires q in c.tx && c.target > 0 && c.window > 0
    requires ack.wall <= ack.receivedAt + c.delayWindow && OnTheWire(ack.delay) && Sampled(c.samples)
    requires Queueing(c, ack, s)
    ensures c.OnAck(q, ack).ctrl.maxWindow <= c.maxWindow
  {
    var base := BaseExists(c, ack);
    QueueingIsOffTarget(c, ack, s, base);
    var a := AckMovesWindow(c, q, ack, base);
    LawHasSign(a, c.gain, c.maxInc, OffTarget(c, ack, base), c.target, c.tx[q].size, c.window);
  }

  /** The same in every run of a configured controller. */
  lemma QueuesNeverRaiseInRuns(run: seq<Ctrl>, events: seq<Event>, i: nat, s: Sample)
    requires IsRun(run, events) && Limited(run[0], run[0].delayWindow)
    requires forall k :: 0 <= k < |events| ==> Prompt(events[k], run[0].delayWindow)
    requires i < |events| && events[i].Settled? && events[i].q in run[i].tx
    requires run[i].target > 0 && run[i].window > 0 && Queueing(run[i], events[i].ack, s)
    ensures run[i + 1].maxWindow <= run[i].maxWindow
  {
    RunStaysLimited(run, events, i);
    CeilingFits(run[i]);
    QueuesNeverRaise(run[i], events[i].q, events[i].ack, s);
  }

  lemma LongerQueue(c: Ctrl, ack: Ack, base: Sample, more: Ack, base2: Sample)
    requires IsBase(c, ack, base) && IsBase(c, more, base2) && ack.wall <= ack.receivedAt + c.delayWindow
    requires more == ack.(delay := more.delay) && ack.delay <= more.delay
    ensures OffTarget(c, more, base2) <= OffTarget(c, ack, base)
  {
    var own := Sample(ack.delay, ack.receivedAt + c.delayWindow);
    var own2 := Sample(more.delay, ack.receivedAt + c.delayWindow);
    assert own in c.samples + [own] && own2 in c.samples + [own2];
    if base in c.samples {
      assert base in c.samples + [own2];
    }
  }

  /** Of two acks that differ in the delay they report, the one that reports more never calls for more. */
  lemma MoreDelayIsNoMore(c: Ctrl, q: u16, ack: Ack, more: Ack)
    requires q in c.tx && c.target > 0 && c.window > 0 && c.gain >= 0.0 && Sampled(c.samples)
    requires ack.wall <= ack.receivedAt + c.delayWindow && OnTheWire(ack.delay) && OnTheWire(more.delay)
    requires more == ack.(delay := more.delay) && ack.delay <= more.delay
    ensures c.RawAdjustment(q, more) <= c.RawAdjustment(q, ack)
  {
    var base := BaseExists(c, ack);
    var base2 := BaseExists(c, more);
    LongerQueue(c, ack, base, more, base2);
    AckLaw(c, q, ack, base);
    AckLaw(c, q, more, base2);
    LawIsMonotone(c.RawAdjustment(q, more), c.RawAdjustment(q, ack), c.gain, c.maxInc, OffTarget(c, more, base2),
      OffTarget(c, ack, base), c.target, c.tx[q].size, c.window);
  }

  // ---------------------------------------------------------------- the round-trip estimate

  /** a is the integer quotient, truncated toward zero. */
  predicate IsTruncated(a: int, n: int, d: int) {
    && (n >= 0 ==> a * d <= n < a * d + d)
    && (n <= 0 ==> a * d - d < n <= a * d)
  }

  lemma QuotientTruncates(n: int, d: int)
    requires d > 0
    ensures IsTruncated(Quotient(n, d), n, d)
  {
  }

  function Distance(a: int, b: int): nat {
    if a < b then b - a else a - b
  }

  /** One eighth of the gap further, but not below zero. */
  ghost predicate Approaches(from: int, to: int, gap: int) {
    exists step :: IsTruncated(step, gap, 8) && to == Max(0, from + step)
  }

  /**
   * What a round trip of `rtt` does to the estimates, in the units the code has them. The variance moves a quarter of
   * the way to the distance of the sample from the estimate, in microseconds. The estimate moves by an eighth of that
   * distance, in microseconds, but from its own value in milliseconds, and the sum is taken for nanoseconds.
   */
  ghost predicate Estimates(c: Ctrl, d: Ctrl, rtt: int) {
    var micros, sample := Quotient(c.rtt, 1000), Quotient(rtt, 1000);
    && IsTruncated(d.rttVar - c.rttVar, Distance(micros, sample) - c.rttVar, 4)
    && Approaches(Quotient(c.rtt, 1_000_000), d.rtt, sample - micros)
  }

  lemma WithRttEstimates(c: Ctrl, rtt: int)
    requires c.rttVar >= 0
    ensures Estimates(c, c.WithRtt(rtt), rtt) && c.WithRtt(rtt).rttVar >= 0 && c.WithRtt(rtt).rtt >= 0
  {
    var micros, sample := Quotient(c.rtt, 1000), Quotient(rtt, 1000);
    QuotientTruncates(Distance(micros, sample) - c.rttVar, 4);
    QuotientTruncates(sample - micros, 8);
    assert IsTruncated(RttAdjustment(micros, sample), sample - micros, 8);
  }

  /** Only the ack of a packet that was sent once counts as a round trip; the timeout is then kept within its bounds. */
  lemma OnlyCleanRoundTripsCount(c: Ctrl, q: u16, ack: Ack)
    requires q in c.tx && c.rttVar >= 0
    ensures var d := c.OnAck(q, ack).ctrl;
            if c.tx[q].acked || c.tx[q].num != 1 then d.rtt == c.rtt && d.rttVar == c.rttVar && d.timeout == c.timeout
            else Estimates(c, d, ack.rtt) && d.timeout == Min(Max(d.rtt + d.rttVar * 4, c.minTimeout), c.maxTimeout)
  {
    WithRttEstimates(c, ack.rtt);
  }

  /** Estimates of round trips of at most `micros`: numbers of microseconds where the code wants nanoseconds. */
  predicate Small(c: Ctrl, micros: nat) {
    0 <= c.rttVar <= micros && 0 <= c.rtt <= micros
  }

  lemma EstimatesStaySmall(c: Ctrl, d: Ctrl, rtt: int, micros: nat)
    requires Small(c, micros) && Estimates(c, d, rtt) && 0 <= rtt && rtt / 1000 <= micros && d.rttVar >= 0
    ensures Small(d, micros)
  {
  }

  /** The call reports no round trip longer than this. */
  predicate Brief(e: Event, micros: nat) {
    e.Settled? ==> 0 <= e.ack.rtt && e.ack.rtt / 1000 <= micros
  }

  lemma ApplyStaysSmall(c: Ctrl, e: Event, micros: nat)
    requires Small(c, micros) && Brief(e, micros)
    ensures Small(Apply(c, e), micros)
  {
    if e.Settled? && e.q in c.tx {
      OnlyCleanRoundTripsCount(c, e.q, e.ack);
      WithRttEstimates(c, e.ack.rtt);
      var d := c.OnAck(e.q, e.ack).ctrl;
      if !c.tx[e.q].acked && c.tx[e.q].num == 1 {
        EstimatesStaySmall(c, d, e.ack.rtt, micros);
      }
    }
  }

  lemma {:induction false} RunStaysSmall(run: seq<Ctrl>, events: seq<Event>, i: nat, micros: nat)
    requires IsRun(run, events) && Small(run[0], micros) && i < |run|
    requires forall k :: 0 <= k < |events| ==> Brief(events[k], micros)
    ensures Small(run[i], micros)
  {
    if i > 0 {
      RunStaysSmall(run, events, i - 1, micros);
      assert run[(i - 1) + 1] == Apply(run[i - 1], events[i - 1]);
      ApplyStaysSmall(run[i - 1], events[i - 1], micros);
    }
  }

  /**
   * Round trips play no part in the timeout: as long as none takes more than a fifth of the minimum timeout's number of
   * nanoseconds, counted in microseconds (a hundred seconds by default), the ack of a packet that was sent once sets
   * the timeout to its minimum, whatever round trips there were.
   */
  lemma TimeoutIgnoresRoundTrips(run: seq<Ctrl>, events: seq<Event>, i: nat, micros: nat)
    requires IsRun(run, events) && Small(run[0], micros) && 5 * micros <= run[0].minTimeout
    requires forall k :: 0 <= k < |events| ==> Brief(events[k], micros)
    requires i < |events| && events[i].Settled? && events[i].q in run[i].tx
    requires !run[i].tx[events[i].q].acked && run[i].tx[events[i].q].num == 1
    ensures run[i + 1].timeout == Min(run[0].minTimeout, run[0].maxTimeout)
  {
    RunStaysSmall(run, events, i, micros);
    RunStaysSmall(run, events, i + 1, micros);
    SettingsStay(run, events, i);
    OnlyCleanRoundTripsCount(run[i], events[i].q, events[i].ack);
  }

  lemma {:induction false} SettingsStay(run: seq<Ctrl>, events: seq<Event>, i: nat)
    requires IsRun(run, events) && i < |run|
    ensures run[i].minTimeout == run[0].minTimeout && run[i].maxTimeout == run[0].maxTimeout
  {
    if i > 0 {
      SettingsStay(run, events, i - 1);
      assert run[(i - 1) + 1] == Apply(run[i - 1], events[i - 1]);
    }
  }
}
