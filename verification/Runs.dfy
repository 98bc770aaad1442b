// Runs of a transition system: finite sequences of states that begin in an
// initial state and in which every state is followed by a successor of it.
module Runs {

  ghost predicate IsRun<S(!new)>(init: S -> bool, next: (S, S) -> bool, run: seq<S>) {
    && 0 < |run|
    && init(run[0])
    && forall i, j {:trigger next(run[i], run[j])} :: 0 <= i < j < |run| && j == i + 1 ==> next(run[i], run[j])
  }

  lemma StepAt<S(!new)>(init: S -> bool, next: (S, S) -> bool, run: seq<S>, i: nat)
    requires IsRun(init, next, run) && 0 < i < |run|
    ensures next(run[i - 1], run[i])
  {
    assert next(run[i - 1], run[i]);
  }

  lemma Extend<S(!new)>(init: S -> bool, next: (S, S) -> bool, run: seq<S>, s: S)
    requires IsRun(init, next, run) && next(run[|run| - 1], s)
    ensures IsRun(init, next, run + [s])
  {
    var longer := run + [s];
    forall i, j | 0 <= i < j < |longer| && j == i + 1 ensures next(longer[i], longer[j]) {
      if j < |run| {
        assert next(run[i], run[j]);
      }
    }
  }

  /** What the initial states satisfy and every step keeps holds all along every run. */
  lemma {:induction false} InvariantHolds<S(!new)>(
    init: S -> bool, next: (S, S) -> bool, inv: S -> bool, run: seq<S>, i: nat)
    requires IsRun(init, next, run) && i < |run|
    requires forall s :: init(s) ==> inv(s)
    requires forall s, s' :: inv(s) && next(s, s') ==> inv(s')
    ensures inv(run[i])
  {
    if i == 0 {
      assert inv(run[0]);
    } else {
      InvariantHolds(init, next, inv, run, i - 1);
      assert next(run[i - 1], run[i]);
    }
  }

  /** What holds at some point and every step keeps holds from there on. */
  lemma {:induction false} StaysTrue<S(!new)>(
    init: S -> bool, next: (S, S) -> bool, p: S -> bool, run: seq<S>, i: nat, j: nat)
    requires IsRun(init, next, run) && i <= j < |run| && p(run[i])
    requires forall s, s' :: p(s) && next(s, s') ==> p(s')
    ensures p(run[j])
    decreases j
  {
    if i < j {
      StaysTrue(init, next, p, run, i, j - 1);
      assert next(run[j - 1], run[j]);
    }
  }

  /** What every step from and to a state of the invariant guarantees holds of every step of
      every run. */
  lemma StepGuarantees<S(!new)>(
    init: S -> bool, next: (S, S) -> bool, inv: S -> bool, rel: (S, S) -> bool, run: seq<S>, i: nat)
    requires IsRun(init, next, run) && 0 < i < |run|
    requires forall s :: init(s) ==> inv(s)
    requires forall s, s' :: inv(s) && next(s, s') ==> inv(s')
    requires forall s, s' :: inv(s) && inv(s') && next(s, s') ==> rel(s, s')
    ensures rel(run[i - 1], run[i])
  {
    InvariantHolds(init, next, inv, run, i - 1);
    InvariantHolds(init, next, inv, run, i);
    assert next(run[i - 1], run[i]);
  }
}
