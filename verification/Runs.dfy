/** Runs of a step relation: a start state, and a label between each two states. */
module Runs {
  ghost predicate IsRunOf<S, L>(step: (S, L, S) -> bool, start: S, states: seq<S>, labels: seq<L>) {
    && |states| == |labels| + 1 && states[0] == start
    && forall i {:trigger labels[i]} :: 0 <= i < |labels| ==> step(states[i], labels[i], states[i + 1])
  }

  lemma {:induction false} InvariantOfRun<S(!new), L(!new)>(
    step: (S, L, S) -> bool, inv: S -> bool, start: S, states: seq<S>, labels: seq<L>, n: nat)
    requires IsRunOf(step, start, states, labels) && n < |states|
    requires inv(start) && forall a, l, b :: inv(a) && step(a, l, b) ==> inv(b)
    ensures inv(states[n])
  {
    if n > 0 {
      InvariantOfRun(step, inv, start, states, labels, n - 1);
      var l := labels[n - 1];
      assert step(states[n - 1], l, states[n - 1 + 1]);
    }
  }

  lemma RunExtends<S, L>(step: (S, L, S) -> bool, start: S, states: seq<S>, labels: seq<L>, l: L, next: S)
    requires IsRunOf(step, start, states, labels) && step(states[|labels|], l, next)
    ensures IsRunOf(step, start, states + [next], labels + [l])
  {
    var states', labels' := states + [next], labels + [l];
    forall i | 0 <= i < |labels'| ensures step(states'[i], labels'[i], states'[i + 1]) {
      if i < |labels| {
        assert labels'[i] == labels[i];
      }
    }
  }

  /** What holds at one state of a run, and is kept by every step, holds at all later states. */
  lemma {:induction false} KeptFrom<S(!new), L(!new)>(
    step: (S, L, S) -> bool, inv: S -> bool, start: S, states: seq<S>, labels: seq<L>, i: nat, n: nat)
    requires IsRunOf(step, start, states, labels) && i <= n < |states|
    requires inv(states[i]) && forall a, l, b :: inv(a) && step(a, l, b) ==> inv(b)
    ensures inv(states[n])
  {
    if i < n {
      KeptFrom(step, inv, start, states, labels, i, n - 1);
      var l := labels[n - 1];
      assert step(states[n - 1], l, states[n - 1 + 1]);
    }
  }

  /**
   * If a step keeps `good` exactly when it is not `bad`, and nothing makes it good again, a run is good up to a
   * state exactly when no step before it was bad.
   */
  lemma {:induction false} GoodIffNoneBad<S(!new), L(!new)>(
    step: (S, L, S) -> bool, inv: S -> bool, good: S -> bool, bad: (S, L) -> bool,
    start: S, states: seq<S>, labels: seq<L>, n: nat)
    requires IsRunOf(step, start, states, labels) && n < |states| && inv(start) && good(start)
    requires forall a, l, b :: inv(a) && step(a, l, b) ==> inv(b) && (good(b) <==> good(a) && !bad(a, l))
    ensures inv(states[n]) && (good(states[n]) <==> forall i :: 0 <= i < n ==> !bad(states[i], labels[i]))
  {
    if n > 0 {
      GoodIffNoneBad(step, inv, good, bad, start, states, labels, n - 1);
      var l := labels[n - 1];
      assert step(states[n - 1], l, states[n - 1 + 1]);
    }
  }
}
