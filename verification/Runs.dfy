/** Induction over runs of any transition system. */
module Runs {

  ghost predicate Traces<S(!new), X(!new)>(states: seq<S>, actions: seq<X>, step: (S, X, S) -> bool) {
    |states| == |actions| + 1 && forall i :: 0 <= i < |actions| ==> step(states[i], actions[i], states[i + 1])
  }

  /** A run can be continued by any step from its last state. */
  lemma TracesOn<S(!new), X(!new)>(states: seq<S>, actions: seq<X>, step: (S, X, S) -> bool, x: X, t: S)
    requires Traces(states, actions, step) && step(states[|actions|], x, t)
    ensures Traces(states + [t], actions + [x], step)
  {
    forall i | 0 <= i < |actions + [x]| ensures step((states + [t])[i], (actions + [x])[i], (states + [t])[i + 1]) {
      if i < |actions| {
        assert step(states[i], actions[i], states[i + 1]);
      }
    }
  }

  /** What holds first and is kept by every step holds always. */
  lemma {:induction false} Invariance<S(!new), X(!new)>(
      states: seq<S>, actions: seq<X>, step: (S, X, S) -> bool, good: S -> bool, i: nat)
    requires Traces(states, actions, step) && good(states[0]) && i < |states|
    requires forall s, x, t :: good(s) && step(s, x, t) ==> good(t)
    ensures good(states[i])
  {
    if i > 0 {
      Invariance(states, actions, step, good, i - 1);
      assert step(states[i - 1], actions[i - 1], states[i]);
    }
  }

  /** What relates each good state to the next, and is a preorder, relates each state to all later ones. */
  lemma {:induction false} Monotony<S(!new), X(!new)>(
      states: seq<S>, actions: seq<X>, step: (S, X, S) -> bool, good: S -> bool, le: (S, S) -> bool, i: nat, j: nat)
    requires Traces(states, actions, step) && good(states[0]) && i <= j < |states|
    requires forall s, x, t :: good(s) && step(s, x, t) ==> good(t) && le(s, t)
    requires forall s :: le(s, s)
    requires forall s, t, u :: le(s, t) && le(t, u) ==> le(s, u)
    ensures le(states[i], states[j])
    decreases j
  {
    if i < j {
      Monotony(states, actions, step, good, le, i, j - 1);
      Invariance(states, actions, step, good, j - 1);
      assert step(states[j - 1], actions[j - 1], states[j]);
    }
  }

  /** The first n actions are all right where they are taken. */
  ghost predicate AllFit<S(!new), X(!new)>(states: seq<S>, actions: seq<X>, fits: (S, X) -> bool, n: nat) {
    n <= |actions| <= |states| && forall i :: 0 <= i < n ==> fits(states[i], actions[i])
  }

  /** The states up to the one numbered n are all right. */
  ghost predicate AllHold<S(!new)>(states: seq<S>, holds: S -> bool, n: nat) {
    n < |states| && forall i :: 0 <= i <= n ==> holds(states[i])
  }

  lemma AllFitOn<S(!new), X(!new)>(states: seq<S>, actions: seq<X>, fits: (S, X) -> bool, i: nat, j: nat)
    requires AllFit(states, actions, fits, i) && i <= j <= |actions| <= |states|
    requires forall k :: i <= k < j ==> fits(states[k], actions[k])
    ensures AllFit(states, actions, fits, j)
  {
  }

  /** If a state that is right leads to one that is exactly by actions that fit, then so over whole runs. */
  lemma {:induction false} HoldsWhileFits<S(!new), X(!new)>(
      states: seq<S>, actions: seq<X>, holds: S -> bool, fits: (S, X) -> bool, n: nat)
    requires |states| == |actions| + 1 && n < |states| && holds(states[0])
    requires forall i :: 0 <= i < n && holds(states[i]) ==> (holds(states[i + 1]) <==> fits(states[i], actions[i]))
    ensures AllHold(states, holds, n) <==> AllFit(states, actions, fits, n)
  {
    if n > 0 {
      HoldsWhileFits(states, actions, holds, fits, n - 1);
      assert AllHold(states, holds, n) ==> holds(states[n - 1]) && holds(states[n]);
      assert AllFit(states, actions, fits, n) ==> fits(states[n - 1], actions[n - 1]);
    }
  }
}
