/** Every write an endpoint accepts is answered exactly once: when it is complete, or when the event loop ends. */
module Answers {
  import opened Collections
  import opened Packets
  import opened SendBuffers
  import opened Sending
  import opened Connections
  import opened Invariants
  import opened Writers
  import opened Frames
  import opened Runs
  import opened Protocol

  /** No result is a failure. */
  predicate Unfailed(results: seq<WriteResult>) {
    forall r :: r in results ==> !r.Failed?
  }

  /** While the loop goes on nothing has failed; it has ended by failing exactly the writes that were left. */
  predicate Settled(c: Conn) {
    if c.stateType != Closed then Unfailed(c.results)
    else
      && |c.pendingWrites| <= |c.results|
      && EndsWith(c.results, |c.results| - |c.pendingWrites|, c.Failures(c.pendingWrites))
  }

  predicate EndsWith(results: seq<WriteResult>, n: nat, failures: seq<WriteResult>)
    requires n <= |results|
  {
    Unfailed(results[..n]) && results[n..] == failures
  }

  // ---------------------------------------------------------------- what reports no failure

  lemma {:induction false} RefillReportsNoFailure(send: SendState, writes: seq<QueuedWrite>, results: seq<WriteResult>)
    requires send.Valid() && Unfailed(results)
    ensures Unfailed(Refill(send, writes, results).results)
    decreases |writes|
  {
    if writes != [] && send.Available() > 0 {
      var w := writes[0];
      if |w.data| <= send.Available() {
        RefillWhole(send, writes, results);
        RefillReportsNoFailure(send.Write(w.data), writes[1..], results + [Written(w.id, |w.data| + w.written)]);
      } else {
        RefillPart(send, writes, results);
      }
    }
  }

  lemma ProcessWritesReportsNoFailure(c: Conn, clock: Clock)
    requires c.Valid() && c.HasNumbers() && c.stateType != Closed && Unfailed(c.results)
    ensures Unfailed(c.ProcessWrites(clock).results)
  {
    if c.stateType == Connected {
      var sent := ProcessWritesFlushes(c, clock);
      RefillReportsNoFailure(c.NextPayloads().send, c.pendingWrites, c.results);
    }
  }

  lemma ApplyReportsNoFailure(c: Conn, e: Event, clock: Clock, wire: seq<Packet>)
    requires c.Valid() && c.stateType != Closed && Possible(c, e, clock, wire) && Unfailed(c.results)
    ensures Unfailed(Apply(c, e, clock, wire).results)
  {
    match e
    case Submit(id, data) => ProcessWritesReportsNoFailure(c.Enqueue(id, data), clock);
    case Fetch => ProcessReadsIsSilent(c);
    case Flush => ProcessWritesReportsNoFailure(c, clock);
    case Expire(p) =>
    case Arrive(p) => if FromWire(p).Ok? { OnPacketAnswersNothing(c, FromWire(p).value, clock); }
    case Interfere(p) => OnPacketAnswersNothing(c, p, clock);
    case Ask =>
    case Silence =>
    case Scribble(_, _, _) =>
  }

  lemma AfterEventSettles(c: Conn, shutdown: bool, clock: Clock)
    requires c.Valid() && (shutdown ==> c.CanFin()) && Unfailed(c.results)
    ensures Settled(c.AfterEvent(shutdown, clock))
  {
    var c1 := if shutdown && c.stateType != Closed then c.Shutdown(clock) else c;
    assert c1.results == c.results;
    if c1.stateType == Closed {
      var failures := c1.Failures(c1.pendingWrites);
      assert (c1.results + failures)[..|c1.results|] == c1.results;
    }
  }

  lemma ActSettles(c: Conn, e: Event, shutdown: bool, clock: Clock, wire: seq<Packet>)
    requires CanAct(c, e, shutdown, clock, wire) && Settled(c)
    ensures Settled(Act(c, e, shutdown, clock, wire))
  {
    ApplyReportsNoFailure(c, e, clock, wire);
    AfterEventSettles(Apply(c, e, clock, wire), shutdown, clock);
  }

  // ---------------------------------------------------------------- runs

  predicate AllSettled(s: System) {
    Settled(s.a) && (s.Joined? ==> Settled(s.b))
  }

  lemma StepSettles(s: System, x: Turn)
    requires AllSettled(s) && CanStep(s, x)
    ensures AllSettled(Step(s, x))
  {
    match x
    case AtInitiator(e, shutdown, clock) => ActSettles(s.a, e, shutdown, clock, if s.Joined? then s.b.out else []);
    case AtAcceptor(e, shutdown, clock) => ActSettles(s.b, e, shutdown, clock, s.a.out);
    case Greet(_, _, _, _, _, _) =>
  }

  lemma RunSettles(run: Run, i: nat)
    requires run.Valid() && i < |run.states|
    ensures AllSettled(run.states[i])
  {
    forall s, x, t | AllSettled(s) && Moves(s, x, t) ensures AllSettled(t) {
      StepSettles(s, x);
    }
    assert AllSettled(run.states[0]);
    Invariance(run.states, run.turns, Moves, AllSettled, i);
  }

  // ---------------------------------------------------------------- one answer for each write

  /** The results of accepted writes, in the order they were given: all but the refusals. */
  function Verdicts(results: seq<WriteResult>): seq<WriteResult> {
    if results == [] then []
    else
      var last := results[|results| - 1];
      Verdicts(results[..|results| - 1]) + if last.Refused? then [] else [last]
  }

  /** The first n writes are complete, with their lengths; the others have failed. */
  function Answered(writes: seq<QueuedWrite>, n: nat, err: Option<ConnError>): seq<WriteResult> {
    seq(|writes|, (i: int) requires 0 <= i < |writes| =>
      if i < n then Written(writes[i].id, |writes[i].data|) else Failed(writes[i].id, err))
  }

  lemma {:induction false} UnfailedAreCompletions(results: seq<WriteResult>)
    requires Unfailed(results)
    ensures |Verdicts(results)| == |Completions(results)|
    ensures forall i :: 0 <= i < |Completions(results)| ==>
              Verdicts(results)[i] == Written(Completions(results)[i].0, Completions(results)[i].1)
  {
    if results != [] {
      var front, last := results[..|results| - 1], results[|results| - 1];
      assert last in results;
      UnfailedAreCompletions(front);
    }
  }

  lemma {:induction false} VerdictsAppend(results: seq<WriteResult>, rs: seq<WriteResult>)
    requires forall r :: r in rs ==> r.Failed?
    ensures Verdicts(results + rs) == Verdicts(results) + rs
    decreases |rs|
  {
    if rs == [] {
      assert results + rs == results;
    } else {
      var front, last := rs[..|rs| - 1], rs[|rs| - 1];
      assert last in rs;
      VerdictsAppend(results, front);
      assert (results + rs)[..|results + rs| - 1] == results + front;
      assert (Verdicts(results) + front) + [last] == Verdicts(results) + rs;
    }
  }

  lemma CompletionsAreVerdicts(results: seq<WriteResult>, accepted: seq<QueuedWrite>, n: nat, err: Option<ConnError>)
    requires Unfailed(results) && n <= |accepted| && Completions(results) == Whole(accepted[..n])
    ensures Verdicts(results) == Answered(accepted[..n], n, err)
  {
    UnfailedAreCompletions(results);
  }

  lemma AnsweredInTwo(accepted: seq<QueuedWrite>, writes: seq<QueuedWrite>, failures: seq<WriteResult>,
                      err: Option<ConnError>)
    requires |failures| == |writes| && AllRemain(writes, accepted)
    requires forall k :: 0 <= k < |writes| ==> failures[k] == Failed(writes[k].id, err)
    ensures var n := |accepted| - |writes|; Answered(accepted[..n], n, err) + failures == Answered(accepted, n, err)
  {
    var n := |accepted| - |writes|;
    forall i | n <= i < |accepted| ensures failures[i - n] == Failed(accepted[i].id, err) {
      assert Remains(accepted[n + (i - n)], writes[i - n]);
    }
  }

  lemma FailuresAreVerdicts(results: seq<WriteResult>, writes: seq<QueuedWrite>, accepted: seq<QueuedWrite>,
                            failures: seq<WriteResult>, err: Option<ConnError>)
    requires Accounted(writes, results + failures, accepted) && Unfailed(results) && |failures| == |writes|
    requires forall k :: 0 <= k < |writes| ==> failures[k] == Failed(writes[k].id, err)
    ensures Verdicts(results + failures) == Answered(accepted, |accepted| - |writes|, err)
  {
    CompletionsAppend(results, failures);
    CompletionsAreVerdicts(results, accepted, |accepted| - |writes|, err);
    VerdictsAppend(results, failures);
    AnsweredInTwo(accepted, writes, failures, err);
  }

  /** Answers speak of numbers and lengths only. */
  lemma SameAnswers(a: seq<QueuedWrite>, b: seq<QueuedWrite>, n: nat, err: Option<ConnError>)
    requires SameShape(a, b)
    ensures Answered(a, n, err) == Answered(b, n, err)
    ensures n <= |a| ==> Answered(a[..n], n, None) == Answered(b[..n], n, None)
  {
  }

  lemma SettledIsAnswered(c: Conn)
    requires Local(c) && Settled(c)
    ensures var n := |c.accepted| - |c.pendingWrites|;
            && 0 <= n <= |c.accepted|
            && Verdicts(c.results) ==
               if c.stateType == Closed then Answered(c.accepted, n, c.err) else Answered(c.accepted[..n], n, None)
  {
    var n := |c.drafts| - |c.pendingWrites|;
    SameAnswers(c.accepted, c.drafts, n, c.err);
    if c.stateType == Closed {
      var k := |c.results| - |c.pendingWrites|;
      assert c.results == c.results[..k] + c.results[k..];
      FailuresAreVerdicts(c.results[..k], c.pendingWrites, c.drafts, c.results[k..], c.err);
    } else {
      CompletionsAreVerdicts(c.results, c.drafts, n, None);
    }
  }
}
